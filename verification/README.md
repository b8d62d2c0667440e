# Asio.IPFS: a Dafny model and its proofs

Asio.IPFS lets a C++ program drive one go-ipfs node through callbacks on a
`boost::asio::io_service`. What is hard in it is not the calls but their
bookkeeping: a handle per operation that two parties may finish, cancel
functions kept twice (in C++ slots and in a Go map), one global Go node that
C++ objects own between them, goroutines that report into one loop, and a
textual rewrite of addresses that is meant to be a structural one. This project
models that and proves what it keeps. `dafny verify dfyconfig.toml` checks it.

## How it is built

**The operation protocol** (`src/node.cpp`, `ipfs_cancel.go`).
`Operations` is a step system over any number of handles, lists, slots, jobs
and Go nodes. Its steps are: start, Go's report, invoking a slot, the two halves of
a job (up to the user's callback, and its on_exit), making and deleting a
`node_impl`, making and freeing the Go node. A user callback runs between the
halves of its job, where every other step of the asio thread is possible too,
so re-entrant use is covered. A step that would fail an assertion, touch a
deleted handle or take a counter below zero is a crash. `Promise` says, without
any of this, what one operation's history should amount to.

- `OperationInvariant`: no run crashes; reference counts, lists, slots, queue.
- `PromiseRefinement`: every run, seen from one operation, is a one-shot promise.
- `JobOrder`: what a user is told, traced to the call or cancel that caused it;
  jobs run in the order they were posted.
- `Completion`: no infinite run without new operations, and what is true at its end.
- `Drain`: the loop of `node::free`; it ends iff every listed handle's slot holds
  that handle's own closure.
- `CancelRegistry`: the Go map against the C++ handles, across node generations.
- `AsioRuntime`: handles, registry and runtime as classes whose methods update
  fields in place, one step above each. `Runtime.Step` takes any step that the
  environment may take and asks nothing else; `Perform` is a whole run of calls.

`HandleRec.op`, `HandleRec.gen`, `GoNode.gen`, `GoNode.allocs` and the fields
`owed`, `gens`, `log`, `posted` and `cancelledCtx` of `World` are history or
obligations of the environment, not memory of the program. `jobCount` is a
natural number; the invariant bounds it by 2, so the source's `unsigned` cannot wrap.

**Starting, owning and freeing the node** (`ipfs_node.go`, `src/node.cpp`).
`NodeStart` has the stages of `start_node`, with each foreign call's success as a
parameter, and what every failure leaves behind. `NodeLifetime` runs them under
C++ nodes, builds under way, moves, assignments, frees and destructions.

**State monitor and error fan-in** (`ipfs_node.go`, `ipfs_api.go`):
`StateMonitor`, `FanIn`.

**Addresses and configuration** (`ipfs_config.go`, `ipfs_repo.go`).
`Multiaddr` has the text form `(/name/value)+` with its parser and printer over
any table of protocols, `PortRewrite` and `AddressRewrite` the search-and-replace
against the component-wise rewrite, `AddressStability` what a second one does,
`RepoConfig` their use.

## Where the code does less than it seems to

These are proved, each with the exact condition.

- A failed start names `go_asio_ipfs_free` without calling it
  (`ipfs_node.go:408,435`), and the C++ side does not free the Go node
  then either. `NodeLifetime.OneBadConfigEndsAllStarts`: one configuration that
  does not parse, and no later start in the process can succeed.
  `RestartableExactlyUnlessDoomed` and `DoomedExactlyBy` say exactly when.
- `node::free` may loop for ever when a caller gives a `Cancel` away that another
  operation still uses. `Drain.FreeEndsExactlyWithOwnClosures` is the exact
  condition on the state and `FreshSlotIsExact` the exact demand on callers;
  `FreshRunsCanBeFreed` has it for whole runs, and `SharedSlotRun` and `EarlyReuseRun` are runs that break either
  half of that demand and end in a list that cannot be drained. "Exactly one of
  cb and *cancel_fn is ever called" (`node.cpp:105-107`) holds of the pair of
  completion and cancellation as EveryRunIsAPromise states it; the slot itself may
  be called often, as a no-op.
- Ids restart at 0 with each node. `CancelRegistry.DeliveryKeepsRegisteredExactly`:
  a delivery leaves every waiting operation registered iff it is not the
  late wrapper of an earlier node whose id is in use again;
  `HastyRestartLosesAnId` is a run in which it is.
- Replacing ports as text is the rewrite of components only without clashes:
  `/tcp/1/tcp/12` with port 5 becomes `/tcp/5/tcp/52`, and `/tcp/5/tcp/5` the
  next time. The condition `Clean` can be read off the address: no port after the
  first is a proper prefix of the new one, and a port that is a proper prefix of a
  later one has an equal of that later one before it. It always suffices
  (`AddressRewrite.CleanAddressesAreSet`), and it is necessary whenever no port
  has the new one as a proper prefix (`OnlyCleanAddressesAreSet`), so for every
  new port of five digits (`FiveDigitPortsAreSetExactly`). Otherwise a later
  search may undo what an earlier one spoiled (`PortRewrite.RepairedClash`), and
  `RewriteSetsExactly` follows the searches port by port.
- Hence repeating an update is not always without effect.
  `AddressStability.RewritingIsStableExactly`: a rewriting that succeeded is stable
  iff it set every port, or the new port is 0; `RepoConfig.UpdateIsIdempotentExactly`
  and `OpenAfterInitExactly` say the same of `updateConfig` and of a first start.
  Port 0 is stable even where it is wrong (`AddressStability.StableButWrong`).
- The monitor retires a channel at the first nil it receives, and returns when
  the context ends, as it does after the first error; a start that fails after the
  servers are up never begins to read. The channel carries one value per listener.
  `FanIn.LeavingStrandsTheOthers`: the channel can still be closed iff the
  receiver still reads or every listener had been heard.
- `README.md:16` of the repository says operations cannot be cancelled one by
  one. The code can, and the model has it.
- When writing the swarm key fails, `openRepo` reports an error with the new
  configuration already stored (`ipfs_repo.go:107-113`); `RepoConfig.OpenRepo` says so.

## Model

| member | source | states |
|---|---|---|
| OperationInvariant.InvSafe | src/node.cpp:83-126 | In any state of the invariant no step can crash: both asserts of the cancel closure hold, no job, list or slot leads to a deleted handle, no count goes below zero. |
| OperationInvariant.DebtsMove | src/node.cpp:114-126 | Which steps change what Go and the abort job still owe each handle, and by how much; nothing else changes it. |
| OperationInvariant.StepKeeps | src/node.cpp:59-126 | Every possible step keeps the whole invariant. In it: job_count is exactly Go's obligation plus the abort's, both at most one and together at least one; linked means still owed, with its callback in place. |
| OperationInvariant.NoRunCrashes | src/node.cpp:50-131 | Under every interleaving, re-entrant callbacks included and with slots shared in any way, no run crashes and the invariant holds at its end. |
| OperationInvariant.WaitingMoves | src/node.cpp:70-103 | A handle goes on waiting through every step but the one that runs its own wrapper; only a start makes one wait. |
| Promise.JudgeAdvances | src/node.cpp:105-113 | The one-shot promise: the state a history amounts to, defined by its first cancel and first report, moves with each admitted event as the state machine says. |
| PromiseRefinement.StepRefines | src/node.cpp:70-126 | Each step is, for each operation, one admitted event of its promise or none. |
| PromiseRefinement.EveryRunIsAPromise | src/node.cpp:70-126 | In every run each operation's state is what its own events amount to: told once exactly when settled, with Go's outcome if Go's job ran before any cancel, and operation_aborted with default values otherwise. |
| PromiseRefinement.GoRanIsPosted | src/node.cpp:114-124 | The outcome delivered by a completion job is the error and the data that Go gave for this operation. |
| JobOrder.JobsRunInOrder | src/node.cpp:93-125 | In every run the jobs begun, followed by those queued, are the jobs posted, each with the arguments of the call or the cancel that posted it: none is lost, changed or overtaken. |
| JobOrder.GoRanWasReported | src/node.cpp:114-124 | In every run, what a completion job delivers to an operation is the error and the data of an earlier call from Go, made for the handle that then held this operation. |
| JobOrder.UsersAreToldWhatHappened | src/node.cpp:93-125 | In every run, an operation that was told anything either had its Go job run first, and was told the err and data of a call from Go for it; or it was cancelled first, and was told operation_aborted and no data. |
| JobOrder.HandlesAreTheirStarts | src/node.cpp:59-68 | In every run each live handle has the address, the node_impl and the slot of the start its operation is counted by, and an id iff that start asked for one. |
| JobOrder.ListsAreInOrder | src/node.cpp:68 | In every run each list is in the order of the starts, so that is the order in which free cancels. |
| PromiseRefinement.DeletedWhenLastJobEnds | src/node.cpp:94 | A handle is deleted by the on_exit of the last of its jobs, when neither Go's obligation nor an abort is left, and by no other step. |
| PromiseRefinement.CallbackRunsUnlinked | src/node.cpp:75-80 | When the callback is entered its handle is out of its list; a node_impl with no other handle in its list may be deleted there. |
| PromiseRefinement.HandlesWereStarted | src/node.cpp:59-68 | In every run a node_impl has at most as many handles as operations were started on it. |
| PromiseRefinement.BuildCallbackMayDelete | src/node.cpp:300-319 | In every run, the callback of the only operation ever started on a node_impl, as build_ starts one, may delete that node_impl. |
| Completion.FinishingRunsAreShort | src/node.cpp:83-126 | Without new operations every interleaving of reports, jobs and cancels is bounded in length by the work at its start, and does not crash. |
| Completion.WorkMeansProgress | src/node.cpp:56-66 | While any handle (and so its io_service::work) lives, Go owes a report or there is a job to run or to end. |
| Completion.RestMeansDone | src/node.cpp:110-126 | With nothing owed or queued: every operation ever started was told exactly once, no handle is left, all lists are empty and no slot leads to a handle. |
| Completion.RunReturnsExactlyWhenDone | src/node.cpp:56-66 | The live handles, and with them the outstanding work, are none iff nothing is owed, queued or running; run() does not return while a callback is owed. |
| Completion.Settle | src/node.cpp:93-126 | From every state of the invariant rest is reachable by reports and jobs alone. |
| Drain.IterateTakesFront | src/node.cpp:262-265 | With own closures one round takes the front handle out of the list, moves its callback into one abort job and touches nobody else. |
| Drain.DrainEmptiesTheList | src/node.cpp:259-265 | With own closures the loop ends after exactly as many rounds as handles are linked, not earlier; it empties this list and no other, posts one abort per handle in list order and runs no callback. |
| Drain.FreeEndsExactlyWithOwnClosures | src/node.cpp:262-265 | The loop of free ends if and only if each handle in the list finds its own closure in its slot. |
| Drain.DrainIsARun | src/node.cpp:262-265 | However far the loop gets, what it did is a run of cancels, one per round at most. |
| Drain.DrainKeepsInv | src/node.cpp:262-265 | So the invariant holds after it. |
| Drain.CancelTwice | src/node.cpp:83-102 | Invoking a slot a second time changes nothing. |
| Drain.FreshRunsAgree | src/node.cpp:64-103 | If no Cancel is given away that a waiting operation still uses, then at every point a handle is linked iff its slot holds its own closure iff it is neither cancelled nor told. |
| Drain.FreshRunsCanBeFreed | src/node.cpp:259-265 | In such runs the drain of any list ends. |
| Drain.FreshSlotIsExact | src/node.cpp:59-103 | Starting an operation while all slots are apart leaves every list drainable, now and after whatever follows but further starts, iff its slot is not one that a waiting operation uses. |
| Drain.SharedSlotNeverDrains | src/node.cpp:83-103 | Giving the slot of a linked handle to a new operation makes the drain of the older one's list endless. |
| Drain.EarlyReuseNeverDrains | src/node.cpp:71 | So does reusing a slot between the cancel and its abort job, which resets the slot under the new operation. |
| Drain.SharedSlotRun | src/node.cpp:83-103 | A run of two starts on one slot, after which free does not end. |
| Drain.EarlyReuseRun | src/node.cpp:71-103 | A run of start, cancel, start on the same slot and the abort job, after which free does not end. |
| CancelRegistry.RegistryNeverLeaks | src/ipfs_bindings/ipfs_cancel.go:10-31 | In every run, with wrapped ids and handles of earlier nodes about, each key of the current node is the id of a waiting operation of that node and leads to its context; so with no callback outstanding the map is empty. Unwrapped ids are pairwise distinct and below the counter, which stays off the sentinel. |
| CancelRegistry.DeliveryKeepsRegisteredExactly | src/ipfs_bindings/ipfs_cancel.go:26-31 | A delivery leaves all waiting operations registered iff it does not free an id of the current node on behalf of an earlier one. |
| CancelRegistry.QuietRunsAgree | src/ipfs_bindings/ipfs_cancel.go:10-42 | If nodes are started only when no operation with an id is waiting, the keys are exactly the ids of the waiting operations, up to 2^64 - 1 allocations. |
| CancelRegistry.CancelIsIsolated | src/ipfs_bindings/ipfs_cancel.go:33-42 | Then cancelling an operation cancels its own context and no other, and changes no registration. |
| CancelRegistry.FreeIsIsolated | src/ipfs_bindings/ipfs_cancel.go:26-31 | And a delivery frees its own id and no one else's. |
| CancelRegistry.UnregisteredTouchNothing | src/ipfs_bindings/ipfs_cancel.go:17-19 | In every run within the bound, an operation without an id, or started while there was no node, has no id or the sentinel, and neither its cancel nor its delivery touches a context or an id of the present node. |
| CancelRegistry.BoundIsSharp | src/ipfs_bindings/ipfs_cancel.go:21-23 | After 2^64 - 1 allocations the next id is the sentinel, and ids 2^64 allocations apart are the same. |
| CancelRegistry.HastyRestartLosesAnId | src/ipfs_bindings/ipfs_node.go:387-390 | A run in which a restart before the last abort leaves an operation waiting with no registration. |
| AsioRuntime.Registry.Allocate | src/ipfs_bindings/ipfs_cancel.go:16-24 | The next id of a counter of 64 bits that wraps. |
| AsioRuntime.Registry.WithCancel | src/ipfs_bindings/ipfs_cancel.go:10-14 | The new context is entered under the id. |
| AsioRuntime.Registry.Free | src/ipfs_bindings/ipfs_cancel.go:26-31 | This id is forgotten and no other. |
| AsioRuntime.Registry.Cancel | src/ipfs_bindings/ipfs_cancel.go:33-42 | Which contexts are cancelled: the id's, or none. |
| AsioRuntime.Runtime.Step | src/node.cpp:50-131 | In the invariant any step the environment may take runs on the objects, fails no assertion, keeps the invariant and changes the state as that step says. |
| AsioRuntime.Perform | src/node.cpp:50-131 | Any sequence of calls from nothing: the objects end where the step system says, each operation is the promise its events amount to, and each user was told what UsersAreToldWhatHappened says. |
| AsioRuntime.Runtime.StartOp | src/node.cpp:153-183 | Allocating the id, constructing and publishing the handle and entering Go is one start step. |
| AsioRuntime.Runtime.GoCall | src/node.cpp:114-126 | Go's report appends one job with its own err and data, and nothing else but the debt changes. |
| AsioRuntime.Runtime.Cancel | src/node.cpp:83-103 | The cancel closure in place is the cancel step. |
| AsioRuntime.Runtime.Invoke | src/node.cpp:128-130 | Calling a slot is the step of whatever closure it holds. |
| AsioRuntime.Runtime.Deliver | src/node.cpp:70-81 | The wrapper: slot reset, id freed, handle unlinked, then the callback. |
| AsioRuntime.Runtime.BeginJob | src/node.cpp:93-99 | The front job runs: an abort calls the callback it carries with operation_aborted and no data, a report calls the handle's callback, if it still has one, with the job's err and data. |
| AsioRuntime.Runtime.EndJob | src/node.cpp:120 | on_exit: the count drops, and at zero the handle is deleted, unlinked, and its own slot with it. |
| AsioRuntime.Runtime.Free | src/node.cpp:259-275 | The whole of free: it terminates; if there is a Go node that is freed and the node_impl deleted, and otherwise the node_impl is kept, drained; the invariant holds, so any step may follow. |
| AsioRuntime.Runtime.DrainList | src/node.cpp:262-265 | The loop terminates, leaves what DrainEmptiesTheList says and keeps the invariant. |
| AsioRuntime.Runtime.CancelAll | src/node.cpp:262-265 | Wherever the loop would end, it ends there, one drain round per iteration. |
| NodeStart.SuccessMeansAllPassed | src/ipfs_bindings/ipfs_node.go:107-314 | A start succeeds iff all stages pass, and then has a collector. |
| NodeStart.StartLeaves | src/ipfs_bindings/ipfs_node.go:118-240 | Field by field what a start leaves, successful or not, from the results of its stages: flags and registrations, the global environment, the core node, the collector. |
| NodeStart.EarlyCodes | src/ipfs_bindings/ipfs_node.go:113-176 | The code for each thing that can fail up to the core node, if all before it went well. |
| NodeStart.LateCodes | src/ipfs_bindings/ipfs_node.go:190-241 | And for each thing after it. |
| NodeStart.CodeTellsStage | src/ipfs_bindings/ipfs_node.go:107-314 | Two starts return the same code iff they got equally far. |
| NodeStart.StartedKeepsFlags | src/ipfs_bindings/ipfs_node.go:118-125 | However far a start gets, each one-time flag is set iff its registration has happened, and that once; a collector is registered iff the node has one. |
| NodeStart.GoProcess.AllocateNode | src/ipfs_bindings/ipfs_node.go:382-395 | Refused and without effect if there is a node; otherwise a node that is only starting. |
| NodeStart.GoProcess.LoadPlugins | src/ipfs_bindings/ipfs_node.go:58-83 | Plugins are injected once per process; a failed injection is tried again by the next start. |
| NodeStart.GoProcess.BuildEnvironment | src/ipfs_bindings/ipfs_node.go:107-135 | The first three stages: the code of the first that fails and what it leaves. |
| NodeStart.GoProcess.LaunchCore | src/ipfs_bindings/ipfs_node.go:137-179 | The stages from the repository to the core node. |
| NodeStart.GoProcess.Serve | src/ipfs_bindings/ipfs_node.go:190-241 | The last stages; the gauge is registered once per process, the collector only when none is. |
| NodeStart.GoProcess.StartNode | src/ipfs_bindings/ipfs_node.go:107-314 | The code of the first failing stage, and exactly the registrations before that stage have happened; neither registration that panics when repeated is repeated. |
| NodeStart.GoProcess.StartBlocking | src/ipfs_bindings/ipfs_node.go:397-413 | A failed start leaves the node allocated. |
| NodeStart.GoProcess.Free | src/ipfs_bindings/ipfs_node.go:441-469 | The node goes, and its collector if it had one; every one-time flag and count of registrations is unchanged; IPFS_NO_NODE without a node. |
| NodeLifetime.NoRunCrashes | src/node.cpp:241-320 | Over every sequence of constructions, builds, cancelled builds, failed starts, moves, assignments, frees and destructions: no destructor reaches its assert(false), no one-time registration panics, no node_impl is deleted twice. |
| NodeLifetime.SingleHolder | src/ipfs_bindings/ipfs_node.go:382-395 | C++ nodes with a node_impl and builds that hold the allocation are one at most, and while there is one there is a Go node, started for it. |
| NodeLifetime.RegisteredAtMostOnce | src/ipfs_bindings/ipfs_node.go:50-83 | In every run prometheus, plugins and gauge are registered at most once each, and there is at most one collector, only with a node. |
| NodeLifetime.RegistrationsAreForGood | src/ipfs_bindings/ipfs_node.go:50-83 | From any point of any run on, over frees and restarts, no one-time flag is cleared and no count of registrations falls, so those counts are the process's. |
| NodeLifetime.BuildIsToldItsStart | src/ipfs_bindings/ipfs_node.go:432-438 | A build's callback is owed success iff every stage of its start passed, and otherwise the code of the stage that failed. |
| NodeLifetime.EveryImplIsReleasedOnce | src/node.cpp:289-320 | Every node_impl ever made is deleted, or else owned by exactly one of a build under way and a node. |
| NodeLifetime.DoomedForEver | src/ipfs_bindings/ipfs_node.go:432-438 | A Go node that no C++ node and no build in order holds is never freed, whatever is done. |
| NodeLifetime.RestartableExactlyUnlessDoomed | src/ipfs_bindings/ipfs_node.go:397-413 | Some continuation gets another start past allocate_node iff the present node is not such a one. |
| NodeLifetime.DoomedExactlyBy | src/ipfs_bindings/ipfs_node.go:407-410 | The steps that make it so: a start failing past its allocation, cancelling the build that holds the node, assigning over its owner. |
| NodeLifetime.OneBadConfigEndsAllStarts | src/ipfs_bindings/ipfs_node.go:113-116 | After one configuration that does not parse no run frees the global node. |
| StateMonitor.TraceIsExpected | src/ipfs_bindings/ipfs_node.go:258-308 | For every script of selects: the notifications are the first count, each reading that differs from the reading right before it, and last, if the context ended, the most recent error (nil iff there was none) with 0. A channel is open iff it was launched and gave no nil; the context is cancelled iff there was an error or others cancelled it. |
| StateMonitor.RunsExactlyScripts | src/ipfs_bindings/ipfs_node.go:264-308 | The scripts the loop can run are those in which each channel that was launched is received from until it gives nil, the end of the context comes only after an error or a cancel from outside, and nothing is picked after the end. |
| StateMonitor.ReportsDiffer | src/ipfs_bindings/ipfs_node.go:290-295 | No two counts notified in a row are equal. |
| StateMonitor.NothingIsUndone | src/ipfs_bindings/ipfs_node.go:263-308 | From any point on, an error stays an error, cancelled stays cancelled, a retired channel stays retired, what was notified stays a prefix, and nothing follows the closing notification. |
| StateMonitor.RetiredOnce | src/ipfs_bindings/ipfs_node.go:266-288 | A channel is retired at most once and not received from after that. |
| StateMonitor.RunMonitor | src/ipfs_bindings/ipfs_node.go:248-310 | The goroutine with its own variables, on any script of selects, notifies exactly that trace. |
| FanIn.NoRunCrashes | src/ipfs_bindings/ipfs_api.go:84-97 | For any number of listeners: no send on the closed channel, no second close, no negative WaitGroup. |
| FanIn.ClosedMeansAllHeard | src/ipfs_bindings/ipfs_api.go:86-97 | Once closed, the channel has delivered exactly one value of each listener. |
| FanIn.StepsOfRun | src/ipfs_bindings/ipfs_api.go:84-97 | The number of steps of a run can be read off the state it leads to. |
| FanIn.PatientReceiverSeesTheClose | src/ipfs_bindings/ipfs_api.go:164-177 | With a receiver that keeps reading, n listeners and any run: there is a next step until the close, and the channel is closed iff the run has 3n + 2 steps. |
| FanIn.LeavingStrandsTheOthers | src/ipfs_bindings/ipfs_node.go:274-308 | In every state the channel can still be closed iff the receiver still reads or every listener was heard; a receiver stops at the first nil, and may leave at any time. |
| FanIn.FirstOfTwoStrandsTheOther | src/ipfs_bindings/ipfs_node.go:299-307 | With two listeners, and the monitor gone after the first value, be it nil or an error, the channel is never closed. |
| Multiaddr.NumberOfDecimal | src/ipfs_bindings/ipfs_config.go:68 | Decimal text of a number reads back as that number. |
| Multiaddr.ParseRender | src/ipfs_bindings/ipfs_config.go:59 | Parsing the text of components gives these components back iff all are accepted, and an error otherwise. |
| Multiaddr.ParseIsExact | src/ipfs_bindings/ipfs_config.go:59-62 | A text parses to components iff these are accepted and render to it; so any other text is an error. |
| Multiaddr.RenderInjective | src/ipfs_bindings/ipfs_config.go:59 | Addresses of the same shape with the same text have the same components. |
| PortRewrite.ReplaceIsRewrite | src/ipfs_bindings/ipfs_config.go:66-69 | One strings.Replace of `/tcp/p` over the text of any address is a rewrite of just the values of its tcp components that begin with p; a match never straddles a component. |
| PortRewrite.PassIsRewrite | src/ipfs_bindings/ipfs_config.go:64-72 | All replacements of one protocol, on the text, are the same rewrites on the components. |
| PortRewrite.NoClashSetsAll | src/ipfs_bindings/ipfs_config.go:64-72 | Without a clash each port ends as the new port. |
| PortRewrite.SetsAllExactlyWithoutClash | src/ipfs_bindings/ipfs_config.go:64-72 | If no port has the new one as a proper prefix, only without a clash. |
| PortRewrite.RepairedClash | src/ipfs_bindings/ipfs_config.go:64-72 | Ports for which that condition is needed. |
| PortRewrite.UnchangedExactlyWhenNew | src/ipfs_bindings/ipfs_config.go:64-72 | The searches leave every port as it is iff each is the new one already. |
| AddressRewrite.RewriteAddressIs | src/ipfs_bindings/ipfs_config.go:58-86 | What both passes make of a canonical address, clash or not; only the second parse can fail. |
| AddressRewrite.RewriteSetsExactly | src/ipfs_bindings/ipfs_config.go:57-92 | A canonical address becomes the same components with every tcp and udp port set, and all else unchanged, iff folding the searches over each port sets it. |
| AddressRewrite.CleanAddressesAreSet | src/ipfs_bindings/ipfs_config.go:57-92 | That is so for all canonical addresses without a clash and all ports 0 to 65535. |
| AddressRewrite.OnlyCleanAddressesAreSet | src/ipfs_bindings/ipfs_config.go:57-92 | And only for those, where no port has the new one as a proper prefix. |
| AddressRewrite.FiveDigitPortsAreSetExactly | src/ipfs_bindings/ipfs_config.go:57-92 | For a new port from 10000 to 65535 an address is rewritten as intended iff it has no clash, with no further condition. |
| AddressRewrite.SinglePortsAreSet | src/ipfs_bindings/ipfs_config.go:57-92 | An address with one port per protocol at most is always rewritten as intended. |
| AddressStability.UnchangedExactlyWhenIntended | src/ipfs_bindings/ipfs_config.go:57-92 | A canonical address is rewritten to itself iff its ports are the new one already. |
| AddressStability.RewritingIsIdempotent | src/ipfs_bindings/ipfs_config.go:57-92 | So an address whose ports are set as intended is rewritten to itself. |
| AddressStability.RewritingIsStableExactly | src/ipfs_bindings/ipfs_config.go:57-92 | What a successful rewriting left is not changed by a second one iff every port was set, or the new port is 0; where no port has the new one as a proper prefix, iff there is no clash, or the new port is 0. |
| AddressStability.ZeroIsStable | src/ipfs_bindings/ipfs_config.go:57-92 | Port 0 is never refused and never changed again. |
| AddressStability.StableButWrong | src/ipfs_bindings/ipfs_config.go:66-69 | An address that port 0 leaves stable but not as intended. |
| AddressRewrite.ClashingAddressIsNotStable | src/ipfs_bindings/ipfs_config.go:66-69 | An address whose second rewriting differs from the first. |
| AddressRewrite.ReplacePort | src/ipfs_bindings/ipfs_config.go:58-75 | The loop that overwrites the captured text computes all replacements in component order. |
| AddressRewrite.ReplacePorts | src/ipfs_bindings/ipfs_config.go:77-91 | In place: each entry is rewritten, or, on an error, exactly those before the first entry that fails. |
| RepoConfig.Config.Clone | src/ipfs_bindings/ipfs_repo.go:93-96 | Equal, and sharing no addresses with the original. |
| RepoConfig.Config.Update | src/ipfs_bindings/ipfs_config.go:94-181 | After a success every field is the caller's, each named; swarm addresses are rewritten one by one, an empty peer list leaves the peers there were, and all else is unchanged. |
| RepoConfig.UpdatedFields | src/ipfs_bindings/ipfs_config.go:94-181 | The same of the configuration that openRepo and initRepo store. |
| RepoConfig.UpdatedSucceeds | src/ipfs_bindings/ipfs_config.go:122-176 | An update succeeds iff every swarm address can be rewritten and the peer lists that were given parse. |
| RepoConfig.UpdateIsIdempotentExactly | src/ipfs_bindings/ipfs_config.go:94-181 | Over canonical swarm addresses, a second update after one that succeeded changes nothing iff the first set every port, or the port is 0; no assumption on the peer parsers is needed. |
| RepoConfig.IdempotentUnlessClash | src/ipfs_bindings/ipfs_config.go:94-181 | In terms of the stored addresses: no clash suffices, and is necessary (port 0 aside) where no port has the new one as a proper prefix. |
| RepoConfig.ClashingUpdateIsNotIdempotent | src/ipfs_bindings/ipfs_config.go:122-124 | Over a clashing address it does. |
| RepoConfig.OpenRepo | src/ipfs_bindings/ipfs_repo.go:77-116 | The stored configuration is replaced as a whole or not touched: not by an update that fails half way, not when storing fails, and never with the lock file present, which keeps the swarm key too. Success is stated exactly; it leaves the updated configuration and the caller's key, if given. |
| RepoConfig.InitRepo | src/ipfs_bindings/ipfs_repo.go:14-75 | A repository is made iff there was none, the profile is known, the update succeeds and the file system allows it; it holds the updated configuration, and the key if one was given and could be written, and is there even if writing the key then fails. |
| RepoConfig.OpenAfterInitExactly | src/ipfs_bindings/ipfs_repo.go:103-107 | The opening that follows an initialisation leaves the configuration it finds iff it stores none, or that second update changes nothing. |

## Left out

- go-ipfs itself: foreign calls are parameters or environment steps that report any error and data once, and the entry points of `ipfs_bindings.go` and `go_asio_ipfs_gc` appear only through that one report.
- `go_asio_ipfs_resolve`: a stub that does not call back, so its handle would not complete.
- `withCancel` in `Operations` enters a context when there is a node; the entry points return IPFS_NO_NODE before it when there is none (`ipfs_bindings.go:141-151`).
- The parent context: freeing a node cancels all its contexts at once; only cancels through the registry are recorded in `cancelledCtx`.
- Goroutines are scheduled by steps: `start_node` completes in one step, so cancelling or freeing in the middle of its stages is not interleaved with them; freeing while a start is under way cannot come from an owner.
- NodeLifetime: `node_impl` numbers stand for addresses that are not used again, and assigning over a live node is included with no operations pending on it; the handles of that node are the matter of `Operations`.
- Operations under way when a node_impl is deleted in another way than through free: `ImplDelete` wants an empty list, as `free` and a build's callback leave it.
- Copies of a `Cancel`, slots destroyed before their operation ends, and calling an empty `std::function`.
- More than one thread in `io_service::run`, which the repository's README rules out.
- Exceptions thrown by user callbacks, and `config_to_json` throwing in `build_` after `impl` was made: the bootstrap list is taken to be non-empty.
- HTTP serving, opening listeners, and a locked configuration whose API list is empty (`ipfs_api.go:80` indexes it).
- NodeStart.GoProcess.Free: what a start that is still under way does after its node was freed is not modelled, only the free itself.
- StateMonitor: `totalPeers` is a reading per tick, and `time.After` is not timed; which ready case a select takes is arbitrary.
- Multiaddr: the multiaddr library is not part of this model; its protocol table is a parameter (names do not begin with a digit and hold no slash), values of path protocols, trailing slashes and signed port texts are not covered, nor is what replacing by a negative port leaves.
- AddressRewrite.OnlyCleanAddressesAreSet: wants no port that has the new one as a proper prefix, because of PortRewrite.RepairedClash; without that RewriteSetsExactly is the condition, which follows the searches.
- RepoConfig.OpenRepo: a failing SetConfig is taken to store nothing.
- File permission checks, the identity, log redirection, printing of versions and peers, JSON, `makeBuildCfg`, memory copied across cgo, the state callback's pointer, and the forwarding templates of `include/ipfs_node.h`.
