# Verified cores of goultroid

A Dafny model of the parts of goultroid that schedule work and keep interaction state, with proofs of what
they promise over every run.

- **Admission controller.** A two-level deficit round robin (classes, then owners) over linked FIFO queues, with
  deadlines, quotas and ordering-key locks. `AdmissionModel` gives the operations on values, `AdmissionStore` the
  agreement of all redundant indexes, `AdmissionRuns` runs of operations, and `AdmissionTheorems`,
  `AdmissionFairness`, `AdmissionWaiting`, `AdmissionTurns`, `AdmissionOrder` and `AdmissionAnswers` the theorems. `Controllers`, `ReadyQueues` and `IndexedHeaps` are the
  in-place code (scanning loops, linked nodes, heap with back pointers), each proved against the model.
- **Interaction runtime.** `InteractionModel` has one function per locked region over live sessions and the durable
  store. `InteractionBounds` proves the capacity and claim invariants, `InteractionDurable` write-through and
  restore, `InteractionEffects` what each operation does and when, `InteractionRuns`, `InteractionTheorems` and
  `InteractionDelivery` what holds in all interleavings, crashes and restarts.
  `ActionFence` adds callback resolution and handler registrations. `InteractionRuntime` and `Dispatcher` are the
  classes with their secondary indexes. `CallbackTokens`, `Bindings` and `Text` are the value-level parts.
- **Hand-off protocols.** `EventLanes` (ordered event partitions) and `DelayedActions` (the coordinator that retires
  itself) are transition systems over the steps of their goroutines.
- **Smaller cores.** `ModuleOrder` and `PluginOrder` over `Kahn` and `DependencyGraph`; `Idempotency`; `Schedule`.

Conventions. Times are integers of nanoseconds. A missing map key reads as zero where the Go code relies on it.
Clocks, random ids and tokens, the feature catalog and the outcome of every store call are parameters, so each
theorem holds for all of their values. One `now` stands for one locked region. Strings are sequences of characters;
callback data and identifiers that are accepted hold ASCII characters only, so their lengths are byte lengths, and
an event's ordering key is its sequence of bytes.

Assumptions made explicit in the run definitions: task ids are fresh among waiting and active tasks and a dispatched
task reports its end once (`AdmissionRuns.Allowed`); session ids are never reused, a commit uses a snapshot of the
same process, and a restart happens at a time not before anything the old process saw (`InteractionRuns.Enabled`);
claim tokens never repeat (`Idempotency.Enabled`).

Where the code decides the shape of a statement: a restored session takes its feature's current scope in memory while
its row keeps the old one until the next write (internal/interaction/durable.go:121), so "the row equals memory" is
stated without the scope. Three promises hold only under a condition, and both sides are stated: an owner that
is ready can be passed over any number of times while others keep joining (`AdmissionWaiting.Starvation`), so its wait is
bounded by the weight granted meanwhile; `ReadyQueue.Push` keeps the id table in agreement exactly for an id not queued
already; a prepared action that nothing disturbed still has to write a target where its event was padded with blanks.

## Model

| member | source | states |
|---|---|---|
| AdmissionFairness.BoundedWaiting | internal/admission/controller.go:283-408 | in any interleaving of operations, while a class stays ready in a pool without being chosen, every other class is chosen there at most its quantum of times |
| AdmissionFairness.ClassServedInTime | internal/admission/controller.go:55-60 | such a class misses at most 15 minus its own quantum selections |
| AdmissionFairness.OwnerBoundedWaiting | internal/admission/controller.go:251-407 | in any run in which an owner stays ready without being chosen, each other owner of the class is chosen at most its weight of times for being in the rotation at the start and once more its weight for each time it joins or gets new quotas |
| AdmissionFairness.NoGrantsNoMore | internal/admission/controller.go:309-407 | without joins and new quotas that is its weight, or never for an owner outside the rotation |
| AdmissionWaiting.OwnerServedInTime | internal/admission/controller.go:251-407 | altogether the class is served before that owner at most the weights of the other owners in rotation at the start plus one weight for each join or change of quotas since |
| AdmissionWaiting.Starvation | internal/admission/controller.go:251-269 | for every n a run that begins three operations after the controller's start has n selections of the pool at which an owner is ready and never chosen, since each newcomer is visited before the rotation wraps |
| AdmissionTurns.ClassTurn | internal/admission/controller.go:283-408 | a class chosen after a selection that went elsewhere, and ready ever since, is chosen at every selection of the pool until it has been chosen its quantum of times |
| AdmissionTurns.ClassTurnEnds | internal/admission/controller.go:399-401 | the next selection then goes to another class if one is ready |
| AdmissionTurns.ClassShares | internal/admission/controller.go:55-60 | while all four classes are ready, every 15 selections in a row, whatever happens between them, go to them 8, 4, 2 and 1 times |
| AdmissionTurns.OwnerTurn | internal/admission/controller.go:309-398 | an owner once chosen, staying ready and not served its last entry, is chosen at every selection of its class until its turn is used up |
| AdmissionTurns.OwnerTurnEnds | internal/admission/controller.go:394-398 | then the class serves another ready owner, and the next turn is a whole one |
| AdmissionTurns.WholeTurnAhead | internal/admission/controller.go:309-398 | a turn not begun is the owner's whole weight, from the start or since the last one ended |
| AdmissionTurns.TurnIsKept | internal/admission/controller.go:337-370 | an owner passed over while it has work keeps what is left of its turn |
| AdmissionTurns.LastEntryEndsTurn | internal/admission/controller.go:394-398 | being served its last entry ends an owner's turn |
| AdmissionTurns.NewWeightStartsOver | internal/admission/controller.go:147-163 | new quotas leave a turn alone if the weight stays and start it over with the new weight if not |
| AdmissionTurns.IdleSelectionTidies | internal/admission/controller.go:296-336 | after a selection that finds nothing, only owners with waiting work are in rotation |
| AdmissionAnswers.AdmitsExactly | internal/admission/controller.go:173-203 | work is admitted exactly when its pool is configured and the waiting tasks together with it keep all four limits; a refusal names the first limit it would break |
| AdmissionAnswers.CancelsExactly | internal/admission/controller.go:440-471 | a cancellation reports the entry exactly when the id was waiting, and only that one waits no more |
| AdmissionAnswers.QuotasInForce | internal/admission/controller.go:131-170 | after any run the quotas in force, weights included, are those last set, with the defaults for what is not positive |
| AdmissionAnswers.ConfigsInForce | internal/admission/controller.go:115-129 | the pools and their limits are those the controller was built with |
| AdmissionAnswers.ClassInForce | internal/admission/controller.go:215-218 | work without a class is normal work |
| AdmissionTheorems.WorkConserving | internal/admission/controller.go:277-411 | selection finds a candidate exactly when some waiting entry of the pool is in time, unlocked, below its owner's active limit and eligible, and the candidate is such an entry |
| AdmissionTheorems.OrderingExclusion | internal/admission/controller.go:359-392 | two distinct active tasks never share a non-empty ordering key, across all pools |
| AdmissionTheorems.ActiveCountExact | internal/admission/controller.go:388-437 | the active counter of an owner is the number of its tasks in flight, in every run |
| AdmissionTheorems.MaxActiveHolds | internal/admission/controller.go:338-344 | with fixed limits no owner ever has more active tasks than MaxActive |
| AdmissionOrder.FifoPerKey | internal/admission/controller.go:346-378 | of two entries of one pool, class, owner and key the later one overtakes a waiting earlier one only if the earlier has passed its queue deadline |
| AdmissionOrder.SweepExact | internal/admission/controller.go:473-499 | an expiry sweep removes exactly the pool's entries with a deadline not after now and changes no other |
| AdmissionOrder.QuotasHold | internal/admission/controller.go:173-240 | runs that ask CanAdmit before Enqueue never exceed pool or owner limits that are not lowered |
| AdmissionRuns.RunOk | internal/admission/controller.go:205-499 | after every run all indexes agree, locks and counters describe the active tasks, and each arrival has left exactly once or still waits |
| AdmissionRuns.StepOk | internal/admission/controller.go:205-499 | every single operation keeps index agreement, the active-task invariant and conservation |
| AdmissionStore.EnqueueOk | internal/admission/controller.go:205-269 | enqueueing a fresh task keeps queues, deadline index, totals, owner counters and the id table in agreement |
| AdmissionStore.ForgetOk | internal/admission/controller.go:440-471 | taking a waiting entry out keeps all of them in agreement |
| AdmissionStore.RotateOk | internal/admission/controller.go:283-335 | what a scan does to wheels, credits and empty owners keeps all of them in agreement |
| AdmissionStore.SetLimitsOk | internal/admission/controller.go:150-163 | new owner limits keep all of them in agreement, cached quanta included |
| AdmissionSchedule.PickComplete | internal/admission/controller.go:283-411 | a scan that finds nothing has visited every class and owner despite removals and cursor wrap |
| AdmissionSchedule.PickChoice | internal/admission/controller.go:346-378 | the chosen entry is the first runnable one of an open owner's queue in its class |
| AdmissionSchedule.PickBudget | internal/admission/controller.go:283-408 | each dispatch spends one unit of a potential that bounds how often another class can precede a ready one |
| AdmissionSchedule.ScanComplete | internal/admission/controller.go:309-407 | a scan of a class that finds nothing has tried each of its owners |
| AdmissionSchedule.ScanBudget | internal/admission/controller.go:309-407 | the same potential argument for the owners of a class |
| AdmissionSchedule.PickKeeps | internal/admission/controller.go:283-408 | scanning keeps every ring well formed, changes no queue contents, and leaves credit only at the class cursor |
| Controllers.Controller.constructor | internal/admission/controller.go:115-129 | starts as the initial model state |
| Controllers.Controller.CanAdmit | internal/admission/controller.go:173-203 | returns the model's refusal, in the source's order of checks |
| Controllers.Controller.Enqueue | internal/admission/controller.go:205-269 | performs the model's enqueue on the fields and heaps |
| Controllers.Controller.SelectCandidateEligible | internal/admission/controller.go:277-411 | performs the model's selection: same entry, same new state |
| Controllers.Controller.OnTaskTerminal | internal/admission/controller.go:414-438 | performs the model's release of slot and ordering key |
| Controllers.Controller.RemoveTask | internal/admission/controller.go:440-471 | performs the model's cancellation |
| Controllers.Controller.SetOwnerLimits | internal/admission/controller.go:150-163 | performs the model's change of limits in every pool |
| Controllers.Controller.PopExpired | internal/admission/controller.go:473-499 | removes exactly the due entries of a pool, earliest first, and returns them |
| Controllers.EarliestDeadline | internal/admission/controller.go:510-522 | the minimum deadline over all pools, or none |
| Controllers.FirstRunnable | internal/admission/controller.go:351-369 | the first entry of a queue the gate lets run |
| Controllers.ScanOwners | internal/admission/controller.go:309-407 | the in-place owner loop computes the model's scan |
| Controllers.PickNext | internal/admission/controller.go:283-411 | the in-place class loop computes the model's pick |
| ReadyQueues.ReadyQueue.Push | internal/admission/ready_queue.go:30-47 | appends to the queue's sequence and files the node under its id; list and id table still agree exactly if that id was not queued already |
| ReadyQueues.ReadyQueue.Remove | internal/admission/ready_queue.go:60-68 | removes exactly the entry with that id, keeping the others' order |
| ReadyQueues.ReadyQueue.RemoveNode | internal/admission/ready_queue.go:70-89 | unlinking a node anywhere removes its entry from the sequence, the id table and the byte total |
| ReadyQueues.ReadyQueue.FirstMatching | internal/admission/ready_queue.go:103-113 | walks the links to the first entry that matches |
| IndexedHeaps.IndexedHeap.Put | internal/admission/deadline_heap.go:48-61 | pushes or re-places an item; order and back pointers hold afterwards |
| IndexedHeaps.IndexedHeap.Remove | internal/admission/deadline_heap.go:63-70 | removes an item anywhere in the heap; order and back pointers hold afterwards |
| IndexedHeaps.IndexedHeap.Peek | internal/admission/deadline_heap.go:72-78 | the earliest item of all |
| IndexedHeaps.IndexedHeap.PopExpired | internal/admission/deadline_heap.go:80-92 | returns exactly the items due by now in non-decreasing order and leaves only later ones |
| IndexedHeaps.IndexedHeap.Swap | internal/admission/deadline_heap.go:14-18 | exchanging two slots keeps every back pointer right |
| IndexedHeaps.IndexedHeap.PopDue | internal/interaction/runtime_internal.go:150-155 | pops an item no later than any other if it is due; otherwise nothing in the heap is due |
| Wheels.ServeBudget | internal/admission/controller.go:371-401 | serving the current item lowers the potential of that item by one |
| Wheels.DropBudget | internal/admission/controller.go:298-307 | removing the current item in place never raises another item's potential |
| Wheels.JoinBudget | internal/admission/controller.go:242-269 | an item joining at the end never raises the potential of those ahead |
| InteractionTheorems.RunOk | internal/interaction/session.go:35-263 | limits, claims, write-through and bookkeeping hold after every run, across crashes and restarts and after rows have been preserved |
| InteractionTheorems.CrashRestores | internal/interaction/durable.go:74-153 | a restart after a crash at any point while memory writes and deletes through brings back exactly the unexpired durable sessions with their live claims and drops exactly the expired rows |
| InteractionTheorems.ShutdownKeeps | internal/interaction/durable.go:45-53 | after rows are preserved or the runtime is closed, steps that write nothing leave the store as it was and lose nothing but claims whose time has come |
| InteractionTheorems.ShutdownRestores | internal/interaction/durable.go:45-153 | the next start after such a shutdown brings back exactly the unexpired durable sessions of that moment with their live claims |
| InteractionTheorems.RestartRestores | internal/interaction/durable.go:74-153 | a restart from any state of any run restores the known sessions exactly if they fit together, also those that left memory while their rows were preserved |
| InteractionTheorems.IdentityStep | internal/interaction/session.go:109-157 | through every step, crash and restart a session keeps its feature, and its target once it has one |
| InteractionTheorems.SingleDelivery | internal/interaction/input.go:21-183 | over any interleaving a session's delivered inputs never outnumber its armed ones, and one actor in one chat is awaited by one session, under that session's own key |
| InteractionDelivery.AwaitedInputArrives | internal/interaction/input.go:21-176 | once a session is armed, and while only steps happen that do not concern it, the first message of that actor in that chat before the deadline is delivered, with the state it was armed with |
| InteractionDelivery.BystandersSpare | internal/interaction/input.go:75-88 | such a step, of any kind, leaves the session and its claim exactly as they are |
| InteractionEffects.UpdatesExactly | internal/interaction/session.go:35-105 | a state update succeeds exactly for a live session at the expected revision, within both byte limits, with an admissible lifetime and a writable row; then memory, row and answer hold the new state, next revision and deadline, the claim is gone, and nothing else changes |
| InteractionEffects.UpdateFaults | internal/interaction/session.go:42-101 | what each failure means; nothing changes unless the session had expired |
| InteractionEffects.TakesExactly | internal/interaction/input.go:154-176 | under a key some session holds, input is delivered exactly if claim and session are unexpired and the row can be written; the answer is that session at its next revision, its claim gone from memory and row |
| InteractionEffects.TakesNothing | internal/interaction/input.go:136-153 | nothing is awaited exactly where no session holds the key |
| InteractionEffects.TakeCheckedExactly | internal/interaction/input.go:172-176 | a delivery to a generation that has ended removes the session instead |
| InteractionEffects.ArmsExactly | internal/interaction/input.go:21-115 | arming succeeds exactly for a live session at the expected revision in a chat where no other session awaits that actor, within limits and writable; the claim lasts for the lifetime but never beyond the session |
| InteractionEffects.ArmFaults | internal/interaction/input.go:31-108 | what each failure means; only an outdated claim of another session may be gone by then |
| InteractionEffects.ReleasesExactly | internal/interaction/input.go:187-203 | a release drops the claim from memory and row exactly if there is one and the row can be written |
| InteractionEffects.CreatesExactly | internal/interaction/runtime.go:101-175 | creation prunes, and succeeds exactly for a good request if an id is found, all limits hold with the new session and its row can be written; memory, row and answer hold the requested session at revision 1 |
| InteractionEffects.CreateFaults | internal/interaction/runtime.go:117-169 | what each failure means |
| InteractionEffects.CreateCheckedExactly | internal/interaction/runtime.go:176-185 | the second look at the catalog takes back a session whose generation has ended |
| InteractionEffects.PicksExactly | internal/interaction/runtime_internal.go:107-121 | the first of four generated ids that does not collide decides |
| InteractionEffects.RoomExactly | internal/interaction/runtime_internal.go:91-105 | there is room for a session exactly if all four limits hold with it |
| InteractionEffects.BindsExactly | internal/interaction/session.go:109-157 | binding succeeds exactly where the live session's binding takes the target and the row can be written, and changes the binding only |
| InteractionEffects.TouchesExactly | internal/interaction/session.go:160-199 | touching moves the deadline to now plus the lifetime and leaves state, revision and claim alone |
| InteractionEffects.LooksUpExactly | internal/interaction/runtime_internal.go:31-59 | a lookup answers exactly with an unexpired session and then changes nothing |
| InteractionEffects.RemovesExactly | internal/interaction/runtime_internal.go:179-227 | removal takes out exactly the sessions asked for, and their rows, but for those whose rows must be deleted and cannot be |
| InteractionEffects.CancelsExactly | internal/interaction/session.go:202-243 | the same for cancelling one session, one of a scope, or all of a scope |
| InteractionEffects.PrunesExactly | internal/interaction/runtime_internal.go:147-264 | pruning takes exactly the expired sessions and the outdated claims |
| InteractionEffects.RestoresExactly | internal/interaction/durable.go:97-151 | a row comes back exactly if it is current, its session is not there yet, and all limits and claim rules hold with it; any other is left alone or deleted |
| InteractionEffects.RestoresInOrder | internal/interaction/durable.go:96-152 | restoring two lists of rows one after the other is restoring their concatenation |
| InteractionEffects.ConfiguresExactly | internal/interaction/config.go:11-94 | a configuration is accepted exactly if no limit is negative and both pairs are in order, with the stated defaults for zeros |
| InteractionTheorems.OneChangePerRevision | internal/interaction/session.go:35-105 | each revision of a session admits at most one successful state change in the whole run |
| InteractionTheorems.StaleForGood | internal/interaction/callback.go:66-68 | once a session's state has been replaced, every snapshot taken before is behind for good |
| InteractionTheorems.UnchangedBetween | internal/interaction/session.go:35-105 | a session found twice at one revision had no state change in between |
| InteractionTheorems.NextOk | internal/interaction/runtime_internal.go:91-264 | every locked region, crash or restart keeps the invariant of runs |
| InteractionDurable.RestoreExact | internal/interaction/durable.go:74-153 | restoring a store that mirrors old sessions rebuilds exactly the unexpired ones with live claims and deletes exactly the expired rows |
| InteractionDurable.RestartSynced | internal/interaction/durable.go:96-152 | after any successful restore, whatever the catalog, memory and store agree |
| InteractionDurable.RestartKeepsStore | internal/interaction/durable.go:96-152 | however a restore ends, the remaining rows mirror the old sessions they belong to |
| InteractionDurable.RemoveManySynced | internal/interaction/runtime_internal.go:184-200 | removal deletes through; a failed delete keeps session and row together; a preserved row still mirrors the session that left memory |
| InteractionDurable.InstallSynced | internal/interaction/durable.go:55-72 | a committed entry is mirrored by its row and a failed save changes neither |
| InteractionDurable.ArmInputSynced | internal/interaction/input.go:59-115 | arming keeps every row in step, also when an outdated claim of another session is dropped unsaved |
| InteractionDurable.TakeInputSynced | internal/interaction/input.go:137-172 | delivery keeps every row in step, also when a claim has just run out |
| InteractionBounds.CreateOk | internal/interaction/runtime.go:134-175 | creation keeps all capacity limits, session shapes and claim uniqueness |
| InteractionBounds.UpdateStateOk | internal/interaction/session.go:61-105 | a state update keeps them |
| InteractionBounds.BindTargetOk | internal/interaction/session.go:127-157 | binding a target keeps them, since it only narrows |
| InteractionBounds.ArmInputOk | internal/interaction/input.go:59-115 | arming keeps them, the key still being the session's own actor and chat |
| InteractionBounds.TakeInputOk | internal/interaction/input.go:137-172 | delivery keeps them |
| InteractionBounds.RestoreOk | internal/interaction/durable.go:96-152 | restoring keeps them from any state and for any rows |
| InteractionRuns.StepEvolves | internal/interaction/input.go:21-203 | every region moves each session on as it reports: same scope, feature and input key, a target once attached, revision raised by exactly the reported change, a claim only from arming |
| InteractionRuntime.NewRuntime | internal/interaction/runtime.go:54-75 | an empty runtime with agreeing indexes under the checked configuration, refused exactly where that is |
| InteractionModel.NormalizeConfig | internal/interaction/config.go:62-94 | an accepted configuration has positive limits, a default lifetime within the longest one, and room for one full state |
| InteractionRuntime.Runtime.CheckCapacity | internal/interaction/runtime_internal.go:91-105 | the counters decide exactly as counting the sessions would |
| InteractionRuntime.Runtime.UniqueId | internal/interaction/runtime_internal.go:107-121 | the first generated id that is unused, within four attempts; a failing generator, a malformed id and repeated collisions are told apart |
| InteractionRuntime.Runtime.Publish | internal/interaction/runtime_internal.go:123-145 | a new session enters the table, scope set, actor count, byte total, heap and input map together |
| InteractionRuntime.Runtime.RemoveSession | internal/interaction/runtime_internal.go:184-227 | a session leaves all of them together, or a failed row deletion changes nothing |
| InteractionRuntime.Runtime.PruneExpired | internal/interaction/runtime_internal.go:147-177 | the heap loop removes exactly the expired sessions whose rows can be deleted, counts them, and puts the others back into the heap |
| InteractionRuntime.Runtime.PruneInputs | internal/interaction/runtime_internal.go:248-264 | drops exactly the claims whose time has come and counts them |
| InteractionRuntime.Runtime.ClearInput | internal/interaction/runtime_internal.go:236-246 | drops one session's claim from entry and map |
| InteractionRuntime.Runtime.SaveDurable | internal/interaction/durable.go:55-72 | writes the row of an opted-in feature or fails without effect |
| InteractionRuntime.Runtime.Create | internal/interaction/runtime.go:101-175 | performs the model's creation up to publication with its error order and keeps the indexes |
| InteractionRuntime.Runtime.CreateChecked | internal/interaction/runtime.go:101-185 | creation with the second look at the catalog, which takes the session back if its generation has ended meanwhile |
| InteractionRuntime.Runtime.Lookup | internal/interaction/runtime_internal.go:31-59 | performs the model's first half of a session operation |
| InteractionRuntime.Runtime.UpdateState | internal/interaction/session.go:35-105 | performs the model's state update and keeps the indexes |
| InteractionRuntime.Runtime.BindTarget | internal/interaction/session.go:109-157 | performs the model's target binding and keeps the indexes |
| InteractionRuntime.Runtime.Touch | internal/interaction/session.go:160-199 | performs the model's refresh and re-places the deadline in the heap |
| InteractionRuntime.Runtime.ArmInput | internal/interaction/input.go:21-115 | performs the model's arming and keeps the claim map one for one with live claims |
| InteractionRuntime.Runtime.TakeInput | internal/interaction/input.go:121-170 | performs the model's delivery and keeps the indexes |
| InteractionRuntime.Runtime.TakeInputChecked | internal/interaction/input.go:121-176 | delivery with its look at the catalog |
| InteractionRuntime.Runtime.ReleaseInput | internal/interaction/input.go:187-203 | performs the model's release and keeps the indexes |
| InteractionRuntime.Runtime.Cancel | internal/interaction/session.go:202-209 | removes one session unless its row cannot be deleted |
| InteractionRuntime.Runtime.CancelIfScope | internal/interaction/runtime_internal.go:69-76 | removes the session only while it has the given scope |
| InteractionRuntime.Runtime.CancelScope | internal/interaction/session.go:213-243 | the loop removes exactly the sessions of one generation whose rows can be deleted, counts them, and reports whether a row could not be |
| InteractionRuntime.Runtime.PruneAll | internal/interaction/session.go:254-263 | claims first, then sessions; the result counts the sessions |
| InteractionRuntime.Runtime.RestoreRow | internal/interaction/durable.go:97-151 | performs the model's restore of one row and keeps the indexes |
| InteractionRuntime.Runtime.RestoreDurable | internal/interaction/durable.go:75-153 | the loop performs the model's restore, stopping at the first failed deletion; a failed load changes nothing |
| InteractionRuntime.Runtime.Close | internal/interaction/runtime.go:78-97 | empties the table and every index and leaves the store alone |
| ActionFence.PreparedActionFence | internal/interaction/dispatcher.go:250-343 | a prepared action runs later only with no state change of its session in between, its own registration installed all the way and its feature in the same scope |
| ActionFence.UndisturbedRuns | internal/interaction/dispatcher.go:250-343 | conversely, after any steps in between a prepared action runs exactly if its session is there, unexpired, at the token's revision, in its scope and matched, its registration still held, its feature current and the action declared, and a target left to claim can be written; none is left unless the event was padded with blanks |
| ActionFence.DispatchExact | internal/interaction/dispatcher.go:304-343 | the same for one dispatch in any state, of any prepared action |
| ActionFence.PrepareExact | internal/interaction/dispatcher.go:250-302 | preparation succeeds exactly if the callback can be answered, a handler of the session's own scope is registered, that scope is current before and after, and a preparer, where there is one, names a scope; without one the action runs in the handler's own |
| ActionFence.ResolveExact | internal/interaction/callback.go:44-74 | for any data and event, resolution succeeds exactly for a live, current and matching session at the token's revision with the action declared and its target settled or claimable, and changes nothing but a missing target |
| ActionFence.ResolveFaults | internal/interaction/callback.go:44-74 | what each failure means |
| ActionFence.CurrentSessionExact | internal/interaction/runtime_internal.go:31-76 | a current session is found unchanged; one of another generation than its feature's is removed |
| ActionFence.IdentityAlong | internal/interaction/session.go:109-157 | over any run of runtime and registry a session keeps its feature, and its target once it has one |
| ActionFence.ResolveSound | internal/interaction/callback.go:44-74 | resolution answers only for a live session of the current generation at the token's revision, bound to the caller |
| ActionFence.ResolveAccepts | internal/interaction/callback.go:44-74 | conversely such a token resolves without any effect |
| ActionFence.OldTokensRejected | internal/interaction/callback.go:66-68 | a token rendered before a state change never resolves after it |
| ActionFence.SameRegistration | internal/interaction/dispatcher.go:202-212 | the same registration token at both ends of a run means the same registration at every point between |
| ActionFence.CloseSparesNewer | internal/interaction/dispatcher.go:214-226 | closing an older registration after a newer one took the key changes nothing, whenever it happens |
| Dispatcher.ActionDispatcher.Register | internal/interaction/dispatcher.go:184-212 | succeeds exactly on a declared action of the current generation not yet held by it, under a token newer than all others |
| Dispatcher.ActionDispatcher.UnregisterScope | internal/interaction/dispatcher.go:230-244 | removes exactly one generation's handlers and counts them |
| Dispatcher.ActionDispatcher.FindCurrent | internal/interaction/runtime_internal.go:31-76 | lookup plus generation check, removing a stale session |
| Dispatcher.ActionDispatcher.Resolve | internal/interaction/callback.go:44-74 | performs the model's resolution, including claiming a first target |
| Dispatcher.ActionDispatcher.Prepare | internal/interaction/dispatcher.go:250-302 | performs the model's preparation, with the preparer's answer and the catalog read after it |
| Dispatcher.ActionDispatcher.Dispatch | internal/interaction/dispatcher.go:304-343 | performs the model's checks before a handler runs |
| Dispatcher.HandlerRegistration.Close | internal/interaction/dispatcher.go:214-226 | takes effect once and only on its own registration |
| Bindings.WithTargetNarrows | internal/interaction/binding.go:80-103 | attaching a target only narrows: later matches matched before, actor and input key stay, the target's own events match, repeating it changes nothing |
| Bindings.WithTargetAccepts | internal/interaction/binding.go:80-103 | a complete target is accepted exactly when its events match the binding |
| Bindings.WithTargetExact | internal/interaction/binding.go:80-103 | an accepted target is the binding's whole target from then on |
| Bindings.MatchesExactly | internal/interaction/binding.go:64-78 | an event matches exactly if laying the binding over it changes nothing |
| Bindings.ValidShapes | internal/interaction/binding.go:46-61 | a valid binding is an actor, a chat, a message in a chat or an inline message |
| Bindings.EventTargets | internal/interaction/callback.go:80-88 | a normal event names the one whole target whose event it is |
| Bindings.FirstEventClaimsTarget | internal/interaction/callback.go:53-65 | the first complete event of a session without target binds it, and only that target matches from then on |
| CallbackTokens.RoundTrip | internal/interaction/token.go:62-124 | every valid action, session id and non-zero uint64 revision encodes into 64 bytes and parses back to itself |
| CallbackTokens.EncodeExact | internal/interaction/token.go:62-77 | encoding succeeds exactly on admissible parts; too long is only ever the action id |
| CallbackTokens.ParseAccepts | internal/interaction/token.go:87-116 | every laid-out admissible token parses, whatever digits spell its revision |
| CallbackTokens.ParseOnlyLayouts | internal/interaction/token.go:80-116 | nothing else parses, and what parses belongs to the a2 namespace |
| CallbackTokens.ReEncode | internal/interaction/token.go:62-116 | parsed data re-encodes to itself exactly when its revision is spelled canonically |
| CallbackTokens.RevisionDigits | internal/interaction/token.go:12-20 | a uint64 revision needs at most 13 base-36 digits |
| EventLanes.SingleConsumer | internal/core/events.go:766-785 | at most one live worker per partition |
| EventLanes.KeyOrder | internal/core/events.go:885-937 | events with equal keys are handed over in the order they were accepted |
| EventLanes.NoStrandedWork | internal/core/events.go:1247-1258 | with no producer between enqueue and ensure, a non-empty partition has a worker that will take from it |
| EventLanes.DrainedAfterClose | internal/core/events.go:1435-1453 | when all workers have exited after close, every accepted job has been handed over |
| EventLanes.StepOk | internal/core/events.go:766-937 | every step of producers, workers and close keeps the lane invariants |
| EventLanes.ComputePartition | internal/core/events.go:466-475 | the hash loop computes that polynomial modulo 2^32 and modulo the partition count |
| EventLanes.HashIsPolynomial | internal/core/events.go:466-475 | wrapping at every character gives the sum of each character times 31 to its distance from the end, modulo 2^32 |
| DelayedActions.NothingStranded | internal/app/delayed_action.go:124-185 | a retired coordinator's channel and heap are empty and nobody can still send to it |
| DelayedActions.IdleIsWoken | internal/app/delayed_action.go:147-185 | a blocked coordinator without work or admissions has a wake pending or in flight |
| DelayedActions.BudgetsHold | internal/app/delayed_action.go:187-292 | pending count and bytes are exactly the outstanding reservations, within both budgets, and every sent request is held or submitted once |
| DelayedActions.ReservesExactly | internal/app/delayed_action.go:220-244 | a call is admitted exactly when the outstanding reservations with its own, overhead included, keep both budgets |
| DelayedActions.StepOk | internal/app/delayed_action.go:202-443 | every step of callers and coordinators keeps the invariant |
| ModuleOrder.ResolveOrder | internal/module/graph.go:15-206 | succeeds exactly on valid, closed, conflict-free, acyclic manifests with the greedy order; a reported error is true of them, and the final length check never fires |
| ModuleOrder.OrderMeans | internal/module/graph.go:160-206 | the order lists every module once, each after all the modules it names as dependencies |
| ModuleOrder.ResolvableMeans | internal/module/graph.go:86-108 | in a resolvable list every named dependency is there and no named conflict |
| ModuleOrder.SameResolution | internal/module/graph.go:15-206 | reordering resolvable modules leaves them resolvable, with the same graph |
| ModuleOrder.InputOrderIrrelevant | internal/module/graph.go:86-205 | reordering the modules changes neither whether they resolve nor the order found, which is the only one of its kind |
| ModuleOrder.CheckCycles | internal/module/graph.go:110-158 | the depth-first search finds a real cycle or proves there is none |
| ModuleOrder.EnterModules | internal/module/graph.go:24-84 | manifests are accepted exactly when all are valid with distinct ids |
| ModuleOrder.KahnSorted | internal/module/graph.go:160-199 | the sorted ready queue lists an acyclic graph in greedy topological order |
| DependencyGraph.GreedyIsLeast | internal/module/graph.go:174-199 | the greedy order is the lexicographically least topological order |
| DependencyGraph.LeastIsUnique | internal/module/graph.go:174-199 | there is only one such order |
| DependencyGraph.LeqMeans | internal/module/graph.go:90 | names are compared by their first difference, and a beginning comes before the whole |
| DependencyGraph.TopoIsAcyclic | internal/module/graph.go:110-158 | a graph with a topological order has no cycle |
| Kahn.StuckHasCycle | internal/plugin/resolver.go:95-97 | a finished run that missed a node leaves a cycle |
| Kahn.KahnComplete | internal/module/graph.go:184-199 | on an acyclic graph a finished run has listed every node |
| PluginOrder.ResolveOrder | internal/plugin/resolver.go:17-100 | succeeds exactly on manifests that can be started, with the first-ready-first order; a reported error is true of them |
| PluginOrder.OrderMeans | internal/plugin/resolver.go:31-100 | the order lists every plugin once, each after all its dependencies, and no two are in conflict |
| PluginOrder.SameResolution | internal/plugin/resolver.go:15-100 | reordering manifests that can be started leaves them so, with the same graph |
| PluginOrder.InputOrderIrrelevant | internal/plugin/resolver.go:15-100 | the startup order is deterministic: reordering the manifests does not change it |
| DependencyGraph.FifoIsUnique | internal/plugin/resolver.go:72-94 | a graph has one first-ready-first order only |
| Idempotency.OldHandleIsFenced | internal/idempotency/claim.go:140-243 | once a key is claimed anew, the old handle's Accept, Reserve and Release change nothing in any run that follows |
| Idempotency.SecondClaimWaits | internal/idempotency/claim.go:88-103 | a second claim succeeds only after the holder released or the current expiry passed |
| Idempotency.AcceptedStays | internal/idempotency/claim.go:232-238 | an accepted claim is never removed by a release and blocks duplicates until its expiry |
| Idempotency.BlocksExactlyUntil | internal/idempotency/claim.go:88-92 | while nobody sets it anew and its holder keeps the key, a claim blocks every attempt before its expiry and none from then on |
| Idempotency.WindowIsSet | internal/idempotency/claim.go:64-100 | a claim, acceptance or reservation at t lasts until t plus the ttl, ten minutes where none is positive |
| Idempotency.HolderMayAct | internal/idempotency/claim.go:94-103 | until its claim ends, whoever began it can still accept, reserve or release it |
| Idempotency.HolderActs | internal/idempotency/claim.go:140-243 | what those make of the claim; a reservation can still be released |
| Idempotency.RunOk | internal/idempotency/claim.go:88-243 | unsettled claims always belong to the open handle of their token and key |
| Idempotency.Manager.Begin | internal/idempotency/claim.go:56-103 | a fresh handle and a processing claim exactly when no unexpired claim is in the way |
| Idempotency.Manager.CheckAndSet | internal/idempotency/manager.go:278-312 | true exactly for a key without unexpired claim, which is then recorded |
| Idempotency.Manager.EvictExpired | internal/idempotency/manager.go:214-231 | drops exactly the claims whose expiry lies before now |
| Idempotency.Manager.IsProcessed | internal/idempotency/manager.go:315-328 | exactly the keys with an unexpired claim |
| Idempotency.ExecutionClaim.Accept | internal/idempotency/claim.go:107-154 | commits exactly an owned processing claim and settles the handle |
| Idempotency.ExecutionClaim.Reserve | internal/idempotency/claim.go:158-199 | fences exactly an owned processing claim |
| Idempotency.ExecutionClaim.Release | internal/idempotency/claim.go:203-243 | removes exactly an owned unaccepted claim and settles the handle |
| Schedule.CatchUpExact | internal/jobs/manager_schedule.go:123-144 | succeeds exactly when the total advance is an int64 duration, then without wrap-around, and gives what advancing one interval at a time gives; the "did not advance" error is unreachable |
| Schedule.NextDueIsLeastSlot | internal/jobs/manager_schedule.go:123-144 | the result is after now, within one interval, in phase, and the least such slot |
| Schedule.PlanLeavesDueList | internal/jobs/manager_schedule.go:167-190 | a due recurring schedule is disabled or moved past now, and skipped exactly when a further slot has come due |

## Left out

- Controllers.Controller: keeps each queue's contents as a sequence field rather than a reference to a linked queue object; the linked queue is verified on its own against the same sequences.
- ReadyQueues.ReadyQueue: does not model clearing a removed node's entry pointer, which only helps the garbage collector.
- AdmissionOrder.FifoPerKey: is stated without a resource predicate, because a rejected earlier entry may be overtaken by design.
- InteractionRuntime.Runtime: keeps entries as values in the table, so sharing of one entry object between table and callers is not captured; session contexts, cancellation causes and diagnostic counters are not modelled.
- InteractionTheorems.CrashRestores: is about a core that writes and deletes through, because a session created after rows were preserved may take the room or the input key of one that left; what holds after that is `RestartRestores` and `ShutdownRestores`. It assumes that the durability versions stay the same over the run and that the restart's catalog does not gather sessions of different old scopes under one new scope; revisions are unbounded, so uint64 wrap-around is not modelled.
- ActionFence.PreparedActionFence: takes each resolution with its checks as one atomic step, knows the preparer by its answer only, and leaves out execution profiles and the merged contexts.
- DelayedActions.BudgetsHold: covers the scheduler up to shutdown; Quiesce, Stop and the due-time order of the heap are not modelled.
- EventLanes.NoStrandedWork: models the ordered partitions only; unordered workers, subscriber fan-out, quotas and durable publishing are not modelled.
- Schedule.PlanLeavesDueList: models the timing decision of one due schedule, not the store and attempt handling around it.
- Changing a pool's configuration at run time, and read-only statistics.
- The SQL-backed idempotency and interaction stores, whose statements are not part of this model.
- Job retry and recovery, the persistence pump, the Telegram transport, plugins, assistants, configuration and HTML splitting.
