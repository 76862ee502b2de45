# rsmpv: callbacks, nodes, ownership, events, streams

A Dafny model of the parts of the rsmpv crate (Rust bindings for libmpv) where ownership,
locking or encoding is decided, and proofs of what those parts promise. libmpv is present
only as the environment its documented contract allows: it stores a registered callback
and may dispatch it at any time from any thread, it keeps an event queue and one event
storage per handle, it keeps the open-function pointers it accepted, and it can refuse.

- **The callback slot** (`SlotSteps`, `SlotInvariant`, `SlotTheorems`, `SlotMilestones`,
  `SlotExamples`, `SlotPasses`, `CallbackSlots`). `set`, `teardown` and `trampoline` as one interleaved step system: any
  number of activities, each at a program point; three locks (registration lock, slot lock,
  and the lock libmpv itself may hold around registration calls and dispatches); `Arc`
  counts as plain integers that steps increment and decrement, so their accuracy is proved,
  not assumed. `teardown` releases `_reg` before the slot guard, as edition 2021 drops
  tail-expression temporaries. The class `CallbackSlot` has the source's fields and methods;
  after each update the step system takes the corresponding steps and must be in the same
  state. Its methods run among other threads: an arbitrary schedule moves the others before
  every lock a method waits for, while user code runs, and before every release.
- **Nodes** (`NodeModel`, `NodeTheorems`, `NodeMeaning`, `NodeAccounting`, `NodeOwnership`,
  `NodeStorages`). The owned tree and the raw pointer graph: six arenas of allocations,
  pointers as (arena, index), C strings as NUL-terminated buffers, list lengths as 32-bit
  integers. `Build` and `Decode` are the encoder and decoder as functions; the class
  `NodeStorage` and the method `FromRaw` are the recursive loops of the source, proved equal
  to them; `NodeMeaning` says without them what a raw node denotes and how a built one lies in
  memory. `Decode` has the safety contract of `from_raw` as its precondition: that every
  access is in bounds is part of it being well defined, and that it terminates needs the
  graph to be acyclic.
- **Ownership** (`OwnershipSteps`, `OwnershipInvariant`, `OwnershipTheorems`, `Players`).
  Builder, `Arc<Mpv>` handles, render contexts that own an `Arc`, protocol registrations and
  boxed closures that may capture an `Arc` of their own player, with interleaved destructors
  whose user code may panic at any of them, and callbacks that a dispatch in flight may keep
  alive past their slot. The classes `Player`
  and `RenderContext` do the same in place, checked step by step against the step system.
- **Events** (`Events`, `EventMeaning`, `EventReads`, `EventDecoder`, `Polling`, `EventHandles`). The decoder
  as one function, and the event a raw event denotes, written down without it; the same decoder as a sequence of reads, down to the single bytes of
  strings and the single structs of nested nodes, of memory that others overwrite; any number
  of pollers whose reads interleave; `poll_event` in place, among other callers; the drain
  loop.
- **Streams and surfaces** (`Streams`, `SoftwareSurface`). The stream trampolines over a
  stream that is an in-memory cursor except where it fails, panics or answers with an
  arbitrary number, against an abstract file; and the bounds check of software rendering in
  machine arithmetic.

`dafny verify dfyconfig.toml` checks everything.

## Where the code and its comments differ

- `rsmpv/src/slot.rs:51-57` says that a callback calling set or clear from inside a dispatch
  would deadlock on the registration lock. By the code it deadlocks when libmpv holds its
  lock for that dispatch or runs it synchronously in a registration call, and otherwise the
  nested call can complete: `SlotTheorems.ReentrantCallDeadlocksIff` states exactly this, and
  `SlotExamples` reaches such a state of each kind.
- A node list longer than 2^31 - 1 items is not refused: its length is cast to a 32-bit
  integer, and what reads back is cut (to nothing when the cast is negative).
  `NodeAccounting.CutIsIdentityIff` says when the round trip is the identity, and
  `NodeAccounting.OverlongArrayReadsBackEmpty` gives an array that is lost.

## Model

| member | source | states |
|---|---|---|
| `SlotInvariant.InvKept` | rsmpv/src/slot.rs:79-147 | Every step of every activity keeps the invariant of the protocol: lock holders, reference counts, the leak, the owner's life, registration against cell, nesting of synchronous dispatches. |
| `SlotInvariant.ReachableInv` | rsmpv/src/slot.rs:79-147 | The invariant holds after every run, from a new slot. |
| `SlotTheorems.StrongCountIsHolders` | rsmpv/src/slot.rs:93-96 | In every reachable state each closure's `Arc` count is exactly one for the cell plus the number of activities that hold it. |
| `SlotTheorems.NeverUsedAfterFree` | rsmpv/src/slot.rs:133-147 | A closure that is in the cell or held by any activity has a positive count and has not been destroyed. |
| `SlotTheorems.InvokedClosureIsLive` | rsmpv/src/slot.rs:37-46 | A dispatch in user code runs a live closure and holds neither crate lock. |
| `SlotTheorems.DestructorRunsAlone` | rsmpv/src/slot.rs:77-97 | When a closure's destructor is about to run, nobody holds the closure, it has not run before, and the thread holds neither crate lock. |
| `SlotTheorems.InFlightHasHolder` | rsmpv/src/slot.rs:37-50 | A closure neither freed nor stored is held by some activity: none is lost. |
| `SlotTheorems.Conservation` | rsmpv/src/slot.rs:93-125 | Closures passed to set = freed + stored + held only by activities, in every reachable state; no destructor has run twice. |
| `SlotTheorems.AllFreedOnceAfterTeardown` | rsmpv/src/slot.rs:118-126 | With nothing in flight every closure but the stored one has been freed exactly once; after the owner's Drop, every closure. |
| `SlotTheorems.TeardownFreesEverything` | rsmpv/src/slot.rs:118-126 | Once the owner's Drop has begun, every run of the activities in flight, in any order, that goes on as long as it can is bounded and ends with every closure ever set freed exactly once. |
| `SlotTheorems.RegistrationMatchesCell` | rsmpv/src/slot.rs:47-50 | Registered implies a non-empty cell, always; with the registration lock free the two are equivalent and the cell holds what the last operation in lock order left. |
| `SlotTheorems.DispatchDuringRegister` | rsmpv/src/slot.rs:74-95 | A dispatch that clones while a set is inside its registration call, synchronous or concurrent, gets the closure of that set. |
| `SlotTheorems.DispatchFindsClosure` | rsmpv/src/slot.rs:105-107 | A dispatch that clones while registered finds a closure; one after the owner is gone finds none and changes no count. |
| `SlotTheorems.SlotOutlivesDispatches` | rsmpv/src/slot.rs:12-34 | The slot's own count is owner plus leak, at most one reference is ever leaked whatever number of sets runs concurrently, and it is positive whenever libmpv knows the pointer or a dispatch is running. |
| `SlotTheorems.DestroyBeforeRelease` | rsmpv/src/slot.rs:112-125 | The owner's destroy call runs after unregistering and emptying the cell and before the removed closure is released. |
| `SlotTheorems.WaitsUpwards` | rsmpv/src/slot.rs:51-57 | An activity only waits for a lock ranked above all locks it holds: registration, libmpv's dispatch lock, slot. |
| `SlotTheorems.NoDeadlock` | rsmpv/src/slot.rs:43-57 | Every state with unfinished activities has an enabled step, even with libmpv's lock around registration and dispatch, and even if any set of unlocked callbacks never returns. |
| `SlotTheorems.RunsToQuiet` | rsmpv/src/slot.rs:43-46 | From every reachable state some run ends all activities but the stuck callbacks, within the steps they have left, without waiting for user code. |
| `SlotTheorems.FinishingRunsAreBounded` | rsmpv/src/slot.rs:43-46 | Every run of activities in progress, in any order, is bounded: the steps taken and the steps left add up to no more than the steps left at the start. |
| `SlotTheorems.HaltedRunsAreQuiet` | rsmpv/src/slot.rs:43-46 | Every such run that goes on as long as it can leaves nothing unfinished but the stuck callbacks. |
| `SlotMilestones.DispatchClones` | rsmpv/src/slot.rs:133-147 | In every run a dispatch that has returned has looked into the cell. |
| `SlotMilestones.DispatchCallsItsClone` | rsmpv/src/slot.rs:136-145 | In every run a dispatch that cloned a closure and has returned has run that closure, whatever the cell holds by then. |
| `SlotMilestones.DispatchCallsTheCell` | rsmpv/src/slot.rs:136-145 | That closure is the one in the cell at the moment of the clone. |
| `SlotMilestones.SetStoresAndRegisters` | rsmpv/src/slot.rs:79-97 | In every run a set that has returned has put its closure into the cell and has made the registration call, also when a callback was registered already. |
| `SlotMilestones.TeardownDoesAll` | rsmpv/src/slot.rs:118-126 | In every run a teardown that has returned has unregistered, has taken the closure out and has come to destroy. |
| `SlotTheorems.ReentrantCallStarves` | rsmpv/src/slot.rs:51-57 | A set or teardown made from inside a dispatch under libmpv's lock, or from a synchronous one, never gets past registration while the callback waits for it. |
| `SlotTheorems.ReentrantCallDeadlocksIff` | rsmpv/src/slot.rs:51-57 | Such a nested call can complete if and only if libmpv does not hold its lock for the dispatch. |
| `SlotExamples.UnlockedReentryCompletes` | rsmpv/src/slot.rs:51-57 | A reachable state in which a callback dispatched without a lock has called set on its own slot, and a run in which that call completes while the callback waits. |
| `SlotExamples.LockedReentryDeadlocks` | rsmpv/src/slot.rs:51-57 | A reachable state with the same call from a dispatch under libmpv's lock, and no run completes it while the callback waits. |
| `SlotExamples.NestedReentryDeadlocks` | rsmpv/src/slot.rs:51-57 | The same for a dispatch made synchronously inside a registration call. |
| `SlotPasses.ReplacePass` | rsmpv/src/slot.rs:93 | The steps of replacing the closure, uninterrupted, as one change of state. |
| `SlotPasses.TakePass` | rsmpv/src/slot.rs:119-123 | The steps of taking the closure, with `_reg` released before the slot guard. |
| `CallbackSlots.CallbackSlot.constructor` | rsmpv/src/slot.rs:63-68 | A new slot: empty cell, nothing leaked, one reference. |
| `CallbackSlots.CallbackSlot.Set` | rsmpv/src/slot.rs:79-97 | Whatever other threads do meanwhile, the call returns with its operation in lock order, the slot leaked once, every synchronous dispatch having called the new closure, and a reachable state of the protocol; if nobody interferes the final state is exact: the cell holds the new closure, it is registered, the old one has lost one handle. |
| `CallbackSlots.CallbackSlot.StoreAndRegister` | rsmpv/src/slot.rs:86-94 | Leak, then store, then register, waiting for each lock; the cell holds the new closure at the end, and if nobody interferes the state is exactly that of the three stretches in this order. |
| `CallbackSlots.CallbackSlot.SyncDispatches` | rsmpv/src/slot.rs:74-78 | Every dispatch made synchronously inside the registration call runs the new closure, each in a reachable state given, even while other threads dispatch. |
| `CallbackSlots.CallbackSlot.Teardown` | rsmpv/src/slot.rs:118-126 | Whatever other threads do meanwhile, the call returns with its operation in lock order, and after the owner's Drop nothing is registered or stored and destroy has run; if nobody interferes the final state is exact: unregistered, cell empty, the removed closure has lost one handle, the owner's slot reference is gone. |
| `CallbackSlots.CallbackSlot.UnregisterAndTake` | rsmpv/src/slot.rs:119-123 | Unregister first, then take, waiting for each lock; if nobody interferes, exactly these stretches in this order and all locks free afterwards. |
| `CallbackSlots.CallbackSlot.Trampoline` | rsmpv/src/slot.rs:133-147 | A dispatch, with or without libmpv's lock and among other threads: at one moment of the call, a reachable state, it clones what is in the cell, at a later one, also reachable, it is running that closure; it finds the slot alive and finishes; if nobody interferes that is what was in the cell at the start, and every count is left as it was. |
| `CallbackSlots.CallbackSlot.RunDispatch` | rsmpv/src/slot.rs:136-145 | Waits for the slot lock, clones what the cell holds at that moment, runs it in a later state while others go on, drops the clone, which may be the last handle by then; inside a registration call that is the closure being registered. |
| `CallbackSlots.CallbackSlot.Await` | rsmpv/src/lib.rs:114-116 | Waiting for a lock ends, because the others can always move and finish, and changes nothing of this call. |
| `NodeModel.ReadCStr` | rsmpv/src/node.rs:47-49 | Reads up to the first NUL, in bounds. |
| `NodeTheorems.BuildExtends` | rsmpv/src/node.rs:92-106 | Every build, successful or failing part-way, only appends to each of the six arenas. |
| `NodeTheorems.DecodeFrame` | rsmpv/src/node.rs:41-81 | Memory that grows does not change what any readable node decodes to, and neither does the choice of ranking. |
| `NodeTheorems.StorageIsMem` | rsmpv/src/node.rs:134-178 | In a storage every list refers only to lists pushed before it, so the graph is acyclic and `from_raw` is defined and terminates on it. |
| `NodeTheorems.BuildReadsBack` | rsmpv/src/node.rs:110-197 | From any storage, build leaves a storage, and the node it returns reads back in bounds as the tree with each list cut to the length its 32-bit count expresses. |
| `NodeMeaning.DecodeIsRight` | rsmpv/src/node.rs:41-81 | Every readable raw node, of every format and wherever it comes from, decodes to the tree it denotes: flags by being nonzero, arrays and maps item by item for max(0, num) items, keys and strings up to their first NUL, bytes up to their size, unknown formats as nothing. |
| `NodeMeaning.OneMeaning` | rsmpv/src/node.rs:41-81 | A raw node denotes at most one tree, so this leaves the decoder no choice. |
| `NodeMeaning.BuildLaysOut` | rsmpv/src/node.rs:110-197 | What a build returns lies in memory as client.h has it: the union member and number of each format, 1 for true, NUL-terminated strings, exactly as many values, keys and bytes as the tree has, a count congruent to the length modulo 2^32. |
| `NodeAccounting.RoundTrip` | rsmpv/src/node.rs:110-197 | Every NUL-free tree builds, into any storage, and reads back; as itself when no list exceeds 2^31 - 1 items. |
| `NodeAccounting.CutIsIdentityIff` | rsmpv/src/node.rs:143-169 | The tree read back is the original if and only if no list at any depth is too long for a 32-bit count. |
| `NodeAccounting.OverlongArrayReadsBackEmpty` | rsmpv/src/node.rs:143-145 | An array of 2^31 items builds without an error and reads back empty. |
| `NodeAccounting.WrappedArrayKeepsOne` | rsmpv/src/node.rs:143-145 | An array of 2^32 + 1 items reads back as its first item. |
| `NodeAccounting.BuildFailsIff` | rsmpv/src/node.rs:102-107 | Build fails if and only if some string or map key at any depth contains a NUL, always with InteriorNul. |
| `NodeAccounting.EarlierNodesUnchanged` | rsmpv/src/node.rs:92-106 | A further build, whether or not it fails, keeps the storage well formed and leaves what every earlier node reads back as. |
| `NodeAccounting.BuildAllocates` | rsmpv/src/node.rs:110-197 | A successful build grows each arena by exactly the number of matching nodes of the tree. |
| `NodeAccounting.BuildMakes` | rsmpv/src/node.rs:134-178 | A build that fails keeps exactly the allocations it had made until the first NUL, items in order, each key before its value. |
| `NodeOwnership.BuildOwns` | rsmpv/src/node.rs:134-193 | The node returned reaches every allocation its build made, each through exactly one pointer, and no other allocation: nothing shared, orphaned or foreign. |
| `NodeStorages.NodeStorage.constructor` | rsmpv/src/node.rs:92-99 | An empty storage. |
| `NodeStorages.NodeStorage.CString` | rsmpv/src/node.rs:102-107 | Appends the NUL-terminated bytes, or fails on an interior NUL and changes nothing. |
| `NodeStorages.NodeStorage.BuildNode` | rsmpv/src/node.rs:110-197 | The recursive walk that grows the six vectors does what `Build` says, on success and on failure. |
| `NodeStorages.NodeStorage.BuildArray` | rsmpv/src/node.rs:134-153 | The loop over items, with its early return, then values slice, then list. |
| `NodeStorages.NodeStorage.BuildMap` | rsmpv/src/node.rs:154-178 | The loop over entries, key before value, with its early returns, then values, keys, list. |
| `NodeStorages.NodeStorage.BuildRaw` | rsmpv/src/node.rs:110-197 | One call from any earlier state: fails exactly on a NUL, otherwise the tree is laid out as client.h has it and reads back as the cut tree, and every node returned before still reads back as it did. |
| `NodeStorages.FromRaw` | rsmpv/src/node.rs:41-81 | The recursive decoder returns the tree the raw node denotes, for every node its safety contract admits. |
| `NodeStorages.ItemsFromRaw` | rsmpv/src/node.rs:50-57 | The index loop over an array's items. |
| `NodeStorages.EntriesFromRaw` | rsmpv/src/node.rs:58-68 | The index loop over a map's keys and values. |
| `OwnershipInvariant.InvKept` | rsmpv/src/lib.rs:536-547 | Every call and every step of every destructor, panicking or not, keeps the ownership invariant: strong count as the objects and the unfreed closures that hold an `Arc`, who may terminate, one owner per box, libmpv's pointer table, borrows. |
| `OwnershipInvariant.ReachableInv` | rsmpv/src/lib.rs:536-547 | The ownership invariant holds after every run, from a new Builder. |
| `OwnershipTheorems.ContextsFreedBeforeTermination` | rsmpv/src/render.rs:503-508 | Once the Mpv's drop has begun, every render context ever created has been freed exactly once and no strong reference is left; at most one termination. |
| `OwnershipTheorems.TerminatesOnceAtTheEnd` | rsmpv/src/lib.rs:618-623 | The terminate call is the first one and happens with no strong reference and no registration in progress. |
| `OwnershipTheorems.ContextKeepsCoreAlive` | rsmpv/src/render.rs:503-508 | While any context or handle holds its `Arc`, the core is neither terminated nor being dropped. |
| `OwnershipTheorems.FreedAtMostOnce` | rsmpv/src/escaped.rs:24-43 | No box is freed twice, and it is freed exactly when nothing owns it any more. |
| `OwnershipTheorems.GpaOutlivesContext` | rsmpv/src/render.rs:158-169 | The get_proc_address box is unfreed until libmpv's context has been freed, also when a destructor panics. |
| `OwnershipTheorems.ProtocolsOutliveCore` | rsmpv/src/stream_cb.rs:173-193 | Until termination every open-function pointer libmpv holds is unfreed and owned by exactly one of the registry and a registration in progress. |
| `OwnershipTheorems.WhenProtocolsAreFreed` | rsmpv/src/lib.rs:536-547 | A registry box is freed only after termination; a refused registration frees its box in its next step, and libmpv does not hold that pointer. |
| `OwnershipTheorems.DropsFreeLast` | rsmpv/src/render.rs:440-445 | The core's drop frees only after termination, a context's drop only after the context was freed; in both the callback's closure goes before the field that owns boxes. |
| `OwnershipTheorems.OnlyForgottenBoxesLeak` | rsmpv/src/render.rs:271-277 | A box is given up for good exactly when libmpv reported a context that is not there. |
| `OwnershipTheorems.EndIsClean` | rsmpv/src/lib.rs:618-677 | When everything was let go of and has finished, whatever failed or panicked: the core has been terminated, exactly once, if and only if no closure still stored captured an `Arc` of its own player; every box has been freed exactly once or is still stored, and after termination only what was deliberately leaked is; every context has been freed exactly once. |
| `OwnershipTheorems.CycleKeepsCoreAlive` | rsmpv/src/lib.rs:474-482 | While a stored closure holds an `Arc` of its own player, the core is not terminated, whatever the user has dropped. |
| `OwnershipTheorems.ClearingBreaksCycle` | rsmpv/src/lib.rs:474-482 | Clearing the wakeup callback leaves a cycle if and only if a registered protocol, or the closure of a context that was not returned, holds an `Arc`. |
| `OwnershipTheorems.CycleLeaksCore` | rsmpv/src/lib.rs:474-476 | A run: the wakeup closure captures an `Arc`, the user drops the only handle, everything has finished, and the core was never terminated. |
| `OwnershipTheorems.ClearReleasesCapture` | rsmpv/tests/smoke.rs:455-474 | The same player with the callback cleared: the closure is freed and the strong count returns to one. |
| `OwnershipTheorems.DropsFinish` | rsmpv/src/lib.rs:618-677 | From every state that has not aborted, with other owners alive or not: every run of drop steps, with any panics, that goes on as long as it can is bounded and ends with nothing left to drop or in an abort, and some run does not abort. |
| `OwnershipTheorems.DropRunsAreBounded` | rsmpv/src/lib.rs:618-677 | Every run of drop steps, in any order and with any panics, is bounded by the work at its start, and unless it aborted the steps taken and the work left add up to no more than that. |
| `OwnershipTheorems.StuckIffDone` | rsmpv/src/lib.rs:618-677 | No drop ever waits: no drop step is possible exactly when nothing is being dropped or a second panic has ended the run. |
| `OwnershipTheorems.LettingGoEndsClean` | rsmpv/src/lib.rs:642-677 | From any reachable state in which the user holds nothing: every run of the remaining drops, in any order and with any further panics, is bounded, and where it cannot go on it has aborted on a second panic, or the core has been terminated, exactly once, if and only if no stored closure held an `Arc` of its own player when the user let go; then every box was freed exactly once or deliberately leaked. |
| `OwnershipTheorems.WakeupCarriedOver` | rsmpv/src/lib.rs:651-669 | A closure registered on the Builder stays registered and unfreed on the Mpv in every run that does not set the callback again, until termination. |
| `Players.Player.constructor` | rsmpv/src/lib.rs:577-583 | A Builder with nothing registered. |
| `Players.Player.SetProperty` | rsmpv/src/lib.rs:645-648 | A failing property set ends the Builder: terminated once, its wakeup closure freed. |
| `Players.Player.Build` | rsmpv/src/lib.rs:651-669 | On success the handle and its wakeup slot move over, nothing is freed; on failure the Builder's own Drop terminates once and frees the closure. |
| `Players.Player.DropCore` | rsmpv/src/lib.rs:618-623 | Terminate, then the wakeup closure, unless a dispatch in flight keeps it, then every registry box, each freed once more, unless a second panic ends the run. |
| `Players.Player.DropProtocols` | rsmpv/src/lib.rs:536-547 | All registry boxes are freed, also after one destructor panicked. |
| `Players.Player.DropArc` | rsmpv/src/render.rs:503-508 | One reference less; the core ends if and only if it was the last one, and otherwise nothing is freed; the drop panics exactly if it was unwinding already or a destructor of what it freed panics. |
| `Players.Player.SetWakeup` | rsmpv/src/lib.rs:456-464 | The new closure is in the slot; the replaced one is freed once, with the `Arc` it may have captured, at once, or left to the dispatch that still holds it; nothing else changes. |
| `Players.Player.ClearWakeup` | rsmpv/src/lib.rs:483-485 | The slot is empty; its closure is freed once, with the `Arc` it may have captured, at once, or left to the dispatch that still holds it; nothing else changes. |
| `Players.Player.DropClosure` | rsmpv/src/slot.rs:137-145 | A closure left to a dispatch is freed exactly once when that dispatch drops it, and so is the `Arc` it captured: if that was the last one, the core ends there. |
| `Players.Player.RegisterProtocol` | rsmpv/src/stream_cb.rs:173-193 | Succeeds if and only if the name has no NUL and libmpv accepts; then the box joins the registry unfreed; a refused box is freed at once, with the `Arc` it may have captured, and the registry and libmpv's table are as before. |
| `Common.FromStatus` | rsmpv/src/error.rs:65-92 | -4 is InvalidParameter, as documented for a protocol already registered; every other code is kept. |
| `Players.Player.FreeBox` | rsmpv/src/escaped.rs:37-43 | Freed once more, or the run ends on a second panic. |
| `Players.Player.CreateContext` | rsmpv/src/render.rs:259-284 | Created exactly on success with a context; refused: closure freed and `Arc` dropped; success without a context: closure leaked, `Arc` dropped while unwinding; if that `Arc` was the last one, the core ends and what it owned is freed too. |
| `Players.RenderContext.SetUpdate` | rsmpv/src/render.rs:290-299 | The new update closure is stored; the replaced one is freed once, with the `Arc` it may have captured, at once, or left to the dispatch that still holds it. |
| `Players.RenderContext.ClearUpdate` | rsmpv/src/render.rs:597-599 | The slot is empty; its closure is freed once, with the `Arc` it may have captured, at once, or left to the dispatch that still holds it. |
| `Players.RenderContext.DropInner` | rsmpv/src/render.rs:440-445 | The context is freed once, then the update closure, unless a dispatch in flight keeps it, then the get_proc_address box, each once. |
| `Players.RenderContext.Drop` | rsmpv/src/render.rs:503-508 | Context, closures, and the `Arc` last; if it was the last, the core ends and everything it owned is freed once; the drop panics exactly if it was unwinding already or a destructor of what it freed panics. |
| `Players.Player.EndsClean` | rsmpv/src/lib.rs:618-677 | The object's state at the end of any sequence of these calls: one termination unless a stored closure holds an `Arc` of its own player, every box freed once or still stored. |
| `EventMeaning.FromRawIsRight` | rsmpv/src/event.rs:204-293 | Every event libmpv leaves in its storage decodes to the event it denotes, id by id, with its error, its property's value by format, its arguments in order; only the NONE event gives None. |
| `EventMeaning.OneEvent` | rsmpv/src/event.rs:204-293 | A raw event denotes at most one event. |
| `EventReads.NodeTracks` | rsmpv/src/node.rs:41-81 | `from_raw` as a sequence of reads, struct by struct and byte by byte: with any beginning of the node's trace as replies it asks for the next read of the trace, with all of it it has the tree the node denotes. |
| `EventDecoder.EventTracks` | rsmpv/src/event.rs:204-293 | The event decoder as a sequence of reads: with any beginning of the event's trace it asks for the next read, with all of it it returns the event denoted. |
| `Polling.InvKept` | rsmpv/src/lib.rs:424-430 | Every step of every poller and every posted event keeps the invariant of polling. |
| `Polling.DecodeReadsItsEvent` | rsmpv/src/lib.rs:424-430 | Whatever else happens, a decode in progress has read a beginning of the trace of the event its own wait call dequeued. |
| `Polling.DequeuedIsPrefix` | rsmpv/src/lib.rs:424-430 | The events dequeued, in lock order, are exactly a prefix of the events posted. |
| `Polling.PollReturnsItsEvent` | rsmpv/src/lib.rs:424-430 | With any number of concurrent pollers each poll that has returned has the event denoted by what its own wait call dequeued. |
| `Polling.EachEventToOnePoll` | rsmpv/src/lib.rs:424-430 | Every wait call's event belongs to exactly one poll. |
| `Polling.NoneMeansEmpty` | rsmpv/src/event.rs:204-293 | A poll that has returned None made its wait call when nothing was pending or was woken by a request, and conversely: unknown events do not end a drain. |
| `Polling.HolderReturns` | rsmpv/src/lib.rs:424-430 | A poll that has dequeued can return and free the lock, within the reads its event has left and two more steps. |
| `Polling.HolderRunsAreBounded` | rsmpv/src/lib.rs:424-430 | In every run, whatever other pollers and posts come in between, a poll that has dequeued takes at most its event's remaining reads and two more steps. |
| `Polling.HolderNeverWaits` | rsmpv/src/lib.rs:424-430 | It can take its next step at every moment until it has returned. |
| `EventHandles.MessageFromRaw` | rsmpv/src/event.rs:263-270 | The argument loop yields max(0, num_args) arguments, the k-th from the k-th pointer: empty if that is null, else the bytes up to the first NUL. |
| `EventHandles.Handle.PollEvent` | rsmpv/src/lib.rs:424-430 | Among any other callers and posted events: the result is the event denoted by what this call's own wait call dequeued, at a turn after the call began, None exactly when that wait call found nothing pending or was woken; by the only caller, the oldest event, which leaves the queue. |
| `EventHandles.Handle.Decode` | rsmpv/src/event.rs:204-293 | The decode, read by read while others go on, terminates and returns the decoding of the event it began with. |
| `EventHandles.Handle.Drain` | rsmpv/tests/smoke.rs:285-308 | By the only caller: returns the pending events in order up to the first wakeup request, all of them if there is none, leaves the others in the queue, and terminates. |
| `Streams.RepliesAreSafe` | rsmpv/src/stream_cb.rs:110-146 | For every answer of a stream, lying, failing or panicking: a read reports the least of the answer, the request and the largest slice, or -1 exactly when it failed; a position or size is passed on exactly when there is one that fits an i64; the unsupported code of a seek means exactly that answer. |
| `Streams.IoStream.Size` | rsmpv/src/stream_cb.rs:66-71 | A size exactly when all three seeks give a value, and then what the seek to the end answered; where those three calls behave, the length, with the position restored. |
| `Streams.ReadTrampoline` | rsmpv/src/stream_cb.rs:110-123 | For every behaviour of the stream: the least of the answer, the request and the largest slice, or -1 on an error or a panic; where the stream behaves, the file's read. |
| `Streams.SeekTrampoline` | rsmpv/src/stream_cb.rs:125-138 | For every behaviour of the stream: a negative offset fails without a call on it, otherwise its position or the code of its error; where the stream behaves, the file's seek. |
| `Streams.SizeTrampoline` | rsmpv/src/stream_cb.rs:140-146 | For every behaviour of the stream: its size if it has one that fits, else unsupported; where its three calls behave, the file's size, and the position is kept. |
| `Streams.Drive` | rsmpv/src/stream_cb.rs:110-146 | On a stream that behaves, any sequence of trampoline calls behaves as the abstract file. |
| `Streams.ReadIsPosix` | rsmpv/src/stream_cb.rs:32-38 | read() of IEEE Std 1003.1: exactly the bytes at the position, as many as were asked for, fit a slice and are there, position moved by what was returned. |
| `Streams.SeekIsPosix` | rsmpv/src/stream_cb.rs:125-146 | lseek() of IEEE Std 1003.1: the position is the offset, also past the end; a negative one fails and changes nothing; a size query tells the length and moves nothing. |
| `Streams.DrainDeliversRest` | rsmpv/src/stream_cb.rs:110-123 | Reading with positive counts until an empty read terminates and delivers exactly the rest of the content. |
| `Streams.InvisibleCalls` | rsmpv/src/stream_cb.rs:125-146 | A size query or a negative seek, put anywhere into any sequence of calls, changes no other reply and not the final state. |
| `SoftwareSurface.CheckIsExact` | rsmpv/src/render.rs:387-406 | On every word size of at least 32 bits the checks pass if and only if, over unbounded integers, the sizes are non-negative, the buffer holds stride * height bytes and a row of pixels, of the format's layout, fits the stride. |
| `SoftwareSurface.AcceptedSurfaceIsSafe` | rsmpv/src/render.rs:131-142 | On an accepted surface every component of every pixel, by the layout of the format, lies in the buffer, and no two at the same place. |
| `SoftwareSurface.ShortRowsAreRefused` | rsmpv/src/render.rs:401-406 | A stride below the width times the pixel layout is always refused, with InvalidParameter. |
| `SoftwareSurface.PixelsInBounds` | rsmpv/src/render.rs:387-406 | Every byte of every pixel of an accepted surface lies in the buffer. |
| `SoftwareSurface.PixelsDistinct` | rsmpv/src/render.rs:131-142 | Different pixel bytes lie at different places. |

## Left out

- Clients and borrowed render contexts: the borrow checker ends them before their Mpv; in the model a call needs an owner that exists, and a registration in progress keeps one behind.
- `wait_event`: it takes the handle exclusively, so it cannot overlap a poll; a timeout is a poll that finds nothing.
- Pass-through calls, typed property access, commands, render parameter arrays, the names of error codes, version packing and frame-info flags: they hold no state.
- OpenGL, DRM, currency of GL contexts, Send and Sync bounds: not decided by this code.
- Alignment of strides: the Rust code does not check it.
- UTF-8: strings are byte sequences on which the lossy conversion is the identity; doubles are 64-bit patterns.
- Pointers are to whole allocations, not into their middle, and an empty slice is an allocation like any other; freeing of the arenas themselves (the storage's own drop) is not modelled.
- Allocation failure and stack depth.
- mem::forget by users of the crate; the crate's own two uses (the leaked slot reference, the closure of a context that was not returned) are modelled.
- Opening and closing of streams: one box per successful open, freed by libmpv's one close call; only the calls in between are modelled.
- `CallbackSlots.CallbackSlot.Set`: other threads move where the method may wait, runs user code or is about to release a closure; every finer interleaving is in the step system. The same holds for `Teardown` and `Trampoline`.
- `Players.Player` and `Players.RenderContext` are one thread by themselves; interleaved drops are in the step system.
- `EventHandles.Handle.Drain`: with other callers posting for ever the loop need not end, so it is stated for the only caller.
- `SlotSteps` does not model panics of closures or of their destructors: they run under no crate lock, the trampoline catches them, and in `set` and `teardown` the release is the last action. What a panic does to the remaining fields of the owner is in `OwnershipSteps`.
- `SlotSteps` has no call that a callback makes on its own slot; a nested call is a second activity for which the callback waits, which is how the two Reentrant lemmas state it.
- `OwnershipSteps` keeps of each callback slot the owner's reference to its closure, and of dispatches in flight only that they may keep a closure alive for any length of time; their counts are in `SlotTheorems`. A closure captures at most one `Arc` of its own player; once the closure is freed, the drop of that `Arc` is a step of its own that may come later than the source has it. What a running closure does with its `Arc` is not modelled.
- `EventReads`: a fixed-size C struct is one read, and so is what a property's data points to; what strings, lists, keys and byte arrays refer to is read one piece at a time.
