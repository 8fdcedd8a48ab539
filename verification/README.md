# The AAL kernel bus core, modelled in Dafny

The bus core keeps track of which process owns which accelerator device. It is
built on intrusive circular lists, on semaphores whose waits a signal can
interrupt, and on a registry of devices, interfaces and drivers. The files here
model that code and prove what it promises, for every input and every run, with
every wait free to be interrupted.

`dafny verify dfyconfig.toml` verifies the project.

## How the model is laid out

- `KosalList`, `KosalSem`, `KosalWalk`: list heads with `prev` and `next`
  pointers. A `ListSpace` is all heads and links there are, with a ghost map from
  each head to the sequence its circle spells out. The primitives are the macro
  bodies of common_hdrs/kosal.h, lines 801-847.
- `QueueSpec`, `AalQueue`: the AAL queue on those nodes, and what runs of its
  operations do to plain sequences. `QueueLocks`: the two locks of a swap when
  several threads swap at once.
- `OwnerSpec`, `OwnerProofs`, `OwnerRuns`, `OwnerAnswers`: the owner operations on plain values.
  `OwnerSpec.Step` says what one call does, on every path; the others prove
  what single calls and whole runs keep, `OwnerAnswers` what answers and events
  tell. A call carries its fate with it: which of its waits are interrupted, and
  what kmalloc returns.
- `OwnerTables`, `OwnerBus`: the same operations on memory. A record is on two
  circular lists at once; each method does to the heads, links, records, sessions,
  counters, events and semaphores what `OwnerSpec.Step` does to values. The ghost
  field `st` is tied to all of these by `Valid`.
- `OwnerThreads`: any number of threads, each with its own list of calls,
  interleaved at every semaphore acquire. A step of a thread is the code between
  two acquires, or less. The calls take effect at one step each, and `Order`
  collects them; that order is the serial one. `OwnerSchedules`: every serial
  order can come about.
- `RegistrySpec`, `Registry`: the allocation list, registration and validation.
  `RegistryLinks`: the same operations on bare next and prev pointers, with devices
  linked twice.
- `DeviceLife`: registration and ownership together, over the whole life of devices.
- `DeviceId`, `DeviceForest`, `ConfigEvents`: masked matching, lookup over the
  device tree, and what a newly installed handler is told.
- `ServiceSpec`, `ServiceBus`: service interfaces, module references and counts.
- `DriverSpec`, `DriverBus`: staged bring-up of a driver, rollback and release.
- `CsrSpec`, `CsrAperture`, `DescRing`: the mirrored register window as bytes,
  and the descriptor ring.

Where the code works step by step, methods with the code's own order of waits,
writes and returns are proved against functions on values, and the lemmas are
about those functions. Addresses are natural numbers, 0 is NULL, and a list link
knows the address of the structure it is embedded in.

## Where the code departs from its comments

The model follows the code.

- Interrupted in the wait for `g_listlock`, add, update and remove return with the
  device semaphore still taken (aalkernel/aalbus/aalbus-device.c:440-443, 543-546,
  608-611); add also loses its record. `OwnerThreads.NoDeadlock` holds for runs in
  which that does not happen; `StopsOnlyWhereStuck` and `StuckForGood` say what
  happens otherwise, and `RefusedChangesNothing` that nothing else is left behind.
- `aaldev_find_pid_owner` validates the device once more and answers NULL when that
  wait is interrupted (aalkernel/aalbus/aalbus-device.c:351-354). An add then takes
  the pid for new. `OwnerRuns.StepKeepsGood` shows that this is the only call that
  breaks distinct pids or exact counts, `InterruptedSearchDoubles` a run with one.
- `aaldev_removeOwner` answers 1 on success, `aaldev_addOwner` answers "not owner"
  for an invalid device, and it hands manifest and context to `aaldev_owner_init`
  in swapped order.
- `_aal_q_empty` answers 0 when its lock is lost, though its comment promises
  "empty".
- `_aal_q_swapqueue` takes the lock of its source queue and then that of its
  target, in the order the caller names them, so that swaps in opposite directions
  can wait for each other: `QueueLocks.SwapsDeadlockInCircles` says exactly when.
- `aaldev_getOwnerSession` lets the device semaphore go before its caller sees the
  session, which another thread may free: `OwnerRuns.SessionStays`,
  `OwnerSchedules.SessionDangles`.
- `aaldev_create_device` links a device on the allocation list, and registering it
  links it again, as does registering a device that the driver core has refused or
  that kept a reference. `RegistryLinks.RunTells` says that the list is in order as
  long as that does not happen, and never again once it has.
- `aalbus_register_device` keeps the bus semaphore when its second wait is
  interrupted (aalkernel/aalbus/aalbus-main.c:737-747): `RegistrySpec.RunTakesBus`
  says exactly when it is taken after a run, `TakenForGood` what becomes of later
  registrations. It leaves a device on the allocation list that the driver core
  refused, so that it validates.
- `aalbus_register_device` initialises the owner list and the semaphore of a device
  before it looks whether that is registered, and `aalbus_unregister_device` does
  not look at the answer of the remove method
  (aalkernel/aalbus/aalbus-main.c:723-734, 805-812). Either way a device loses its
  owners: `DeviceLife.RunSound` says that the lists are sound after a run exactly
  when neither has happened to a device that somebody owned.
- `aaldev_destroy_device` answers 252, not -4, when its wait for the allocation
  list is interrupted: the answer of the wait has been cut to eight bits
  (common_hdrs/kosal.h:149, 692).
- `aal_interface_del` looks for the ID but takes the interface passed off its list:
  `ServiceSpec.UnregisterFreesItsOwnId` says when that frees the ID. A get or a
  release interrupted in its wait miscounts the handles (`StepKeepsCounts`).
- `aalbus_init_driver` does not keep a static major number, and the release gives
  the region of `m_major` back: `DriverSpec.ReleaseRestores` says exactly when that
  is the right one, `StaticReleaseTakesAnothers` shows a driver giving back the
  region of another. A driver brought up twice loses track of its first region
  (`SecondBringUpLeaks`), because the rollback of the second bring-up clears the
  flags of the first. `SafeKeepsRegions` says exactly which requests are safe.
- The register accessors check no offset: a set beyond the write region changes
  what is got from the read region (`CsrSpec.SetBeyondIsGot`).
- Of the AFU GUID, masked matching compares the low word only; a mask with none of
  the defined bits matches every device.

## Model

| member | source | states |
|---|---|---|
| KosalList.ListHead.constructor | common_hdrs/kosal.h:807 | a list head starts out as a circle of itself |
| KosalList.LinkHead | common_hdrs/kosal.h:810 | the four pointer writes of an insertion at the head turn the circle through h and s into the circle through h and [n] + s; of a node that is in s they make a circle of n and what was in front of it, from which h is not reached |
| KosalList.LinkTail | common_hdrs/kosal.h:811 | likewise at the tail, giving s + [n] |
| KosalList.Unlink | common_hdrs/kosal.h:814 | unlinking any element, found through its own pointers alone, leaves the circle of the others in their order |
| KosalList.Relink | common_hdrs/kosal.h:816-823 | the pointer writes of a replacement put the new head in place of the old one in a circle of any length |
| KosalList.ListSpace.Init | common_hdrs/kosal.h:807 | initialising a head that is on no list gives it an empty list and touches no other list |
| KosalList.ListSpace.LinkFirst | common_hdrs/kosal.h:810 | among any number of lists: a loose node heads the list of h; a node that is on that list already makes the walk from h go round without coming back |
| KosalList.ListSpace.AddHead | common_hdrs/kosal.h:810 | among any number of lists, exactly the list of h grows, by n at its head; every list stays a well-formed circle |
| KosalList.ListSpace.AddTail | common_hdrs/kosal.h:811 | likewise at the tail |
| KosalList.ListSpace.Del | common_hdrs/kosal.h:814 | n leaves the one list it is on, wherever that is; every other list stays as it was |
| KosalList.ListSpace.DelInit | common_hdrs/kosal.h:813 | as Del, and n is a list of its own afterwards, also when it was alone before |
| KosalList.ListSpace.Move | common_hdrs/kosal.h:827 | n leaves its list and heads that of h, also when that is the same list |
| KosalList.ListSpace.Replace | common_hdrs/kosal.h:816-823 | the new head takes over the whole list, of any length including none, in order; what it headed before is gone |
| KosalList.ListSpace.ReplaceInit | common_hdrs/kosal.h:825 | as Replace, and the old head is empty afterwards |
| KosalList.ListSpace.NextAt | common_hdrs/kosal.h:829-830 | following next from element k leads to element k + 1, and from the last one to the head |
| KosalSem.Mutex.GetAlertable | common_hdrs/kosal.h:692 | an alertable wait answers true exactly when interrupted, and otherwise holds the semaphore |
| KosalSem.Mutex.Put | common_hdrs/kosal.h:702 | the semaphore is free |
| KosalWalk.ForEachSafe | common_hdrs/kosal.h:832-835 | the safe walk ends; it visits the items present at entry, once each and in order, up to the first that the callback stops at, and returns that one or null, also when callbacks unlink the current item; the list then has exactly the items not unlinked |
| KosalWalk.KeptWithin | common_hdrs/aalqueue.h:384-420 | what a walk leaves of the items it visited is exactly those the callback did not unlink, each once |
| KosalWalk.Visit | common_hdrs/kosal.h:832-835 | one round: the next item is fetched before the callback may unlink the current one, so the walk goes on in the old order |
| AalQueue.Queue.constructor | common_hdrs/aalqueue.h:127-132 | a new queue is empty and its lock free |
| AalQueue.Queue.Enqueue | common_hdrs/aalqueue.h:145-156 | the node-level operation does what QueueSpec says: last on the queue, or nothing when the lock is lost |
| AalQueue.Queue.PushQueue | common_hdrs/aalqueue.h:168-179 | first on the queue, or nothing when the lock is lost |
| AalQueue.Queue.Dequeue | common_hdrs/aalqueue.h:190-216 | takes and returns the first item, null when empty or the lock is lost; the item is alone afterwards |
| AalQueue.Queue.SwapQueue | common_hdrs/aalqueue.h:230-259 | the item leaves wherever it is and is last on the target; when either lock is lost nothing changes and no lock is kept |
| AalQueue.Queue.Peek | common_hdrs/aalqueue.h:269-292 | the first item without taking it, null when empty or the lock is lost |
| AalQueue.Queue.Empty | common_hdrs/aalqueue.h:303-317 | non-zero exactly when the lock was got and the queue is empty: a lost lock answers 0, against the comment above the code |
| AalQueue.Queue.Find | common_hdrs/aalqueue.h:328-351 | the item exactly when it is on this queue and the lock was got |
| AalQueue.Queue.Remove | common_hdrs/aalqueue.h:360-373 | the item leaves whatever list it is on, or nothing happens when the lock is lost |
| AalQueue.Queue.DoForEachItem | common_hdrs/aalqueue.h:396-424 | the safe walk under the lock; a lost lock visits nothing |
| QueueSpec.EffectOnQueue | common_hdrs/aalqueue.h:145-373 | each operation acts on each queue as on a plain sequence, and on no queue it does not name but for an item it moves away |
| QueueSpec.RunRefinesSequence | common_hdrs/aalqueue.h:145-373 | any run of enqueue, push, dequeue, peek, find, remove and swap, with any locks lost, does to every queue what the same run does to a plain sequence |
| QueueSpec.FirstInFirstOut | common_hdrs/aalqueue.h:145-216 | over any run of enqueues and dequeues, what came out followed by what is left is what was there followed by what went in |
| QueueSpec.HandedOutInOrder | common_hdrs/aalqueue.h:145-216 | on the nodes, any locks lost: the items the dequeues of a run return, in order, followed by what is left on the queue are what was on it followed by what went in |
| QueueSpec.DequeueHandsOver | common_hdrs/aalqueue.h:190-216 | a dequeue that returns an item leaves what was behind it; it returns null exactly when its lock is lost or the queue empty, and then changes nothing |
| QueueSpec.PeekTellsNext | common_hdrs/aalqueue.h:269-292 | a peek returns what a dequeue in its place would |
| QueueSpec.FindTells | common_hdrs/aalqueue.h:328-351 | a find returns the item exactly when the lock is got and it is on the queue, and otherwise null |
| QueueSpec.InterruptedDoesNothing | common_hdrs/aalqueue.h:145-373 | an operation that loses a lock, a swap either of its two, changes nothing and returns nothing |
| QueueSpec.LastPushedIsFirst | common_hdrs/aalqueue.h:168-179 | after a run of pushes the items are there last one first, in front of what was there |
| QueueSpec.RemoveTakesOne | common_hdrs/aalqueue.h:360-373 | a remove takes out the item and leaves all others in their order |
| QueueSpec.ItemsSitWherePut | common_hdrs/aalqueue.h:145-373 | over any run each item is on exactly the queue it was last put on, or on none if taken off since: none is lost or doubled |
| QueueSpec.SwapMoves | common_hdrs/aalqueue.h:230-259 | a swap makes the item last on the target, keeps the order of all others on every list and the items queued altogether; from no queue it is an enqueue |
| QueueLocks.StuckIsCircle | common_hdrs/aalqueue.h:238-258 | swaps that wait for each other in a circle move items round in a circle of queues |
| QueueLocks.CircleGetsStuck | common_hdrs/aalqueue.h:238-258 | any circle of swaps has a run that ends with each holding its first lock and waiting for the next one's |
| QueueLocks.StuckIsForGood | common_hdrs/aalqueue.h:238-258 | a swap in such a circle of waits never gets its second lock, whatever the others do |
| QueueLocks.NoCircleNoWait | common_hdrs/aalqueue.h:238-258 | without a circle of swaps some swap can always go on while one has not finished |
| QueueLocks.NoCircleAllFinish | common_hdrs/aalqueue.h:238-258 | so from any state reached there is a way to go on in which every swap is made |
| QueueLocks.SwapsDeadlockInCircles | common_hdrs/aalqueue.h:238-258 | swaps running at once, their waits not interrupted, can come to a state in which one of them is blocked for good, however the others go on, exactly when some of them move items round in a circle of queues |
| QueueLocks.OppositeSwapsDeadlock | common_hdrs/aalqueue.h:238-258 | in particular two swaps between the same queues in opposite directions |
| OwnerProofs.FoundIsFirst | aalkernel/aalbus/aalbus-device.c:357-369 | the search finds the first owner with the pid, and none exactly when there is none |
| OwnerProofs.LinkedWf | aalkernel/aalbus/aalbus-device.c:436-625 | the list work of add, update and remove keeps every record on the owner list of its device, once, and on one session list, once, and on no other |
| OwnerProofs.OnItsTwoLists | common_hdrs/aalbus-device.h:240-256 | a record in use is on the owner list of its device and on one session list, once on each, and on no other |
| OwnerProofs.LinkedOwners | aalkernel/aalbus/aalbus-device.c:445-623 | of all owner lists only that of the device changes: a record comes to its head or leaves it, and an update changes none |
| OwnerProofs.LinkedDevlists | aalkernel/aalbus/aalbus-device.c:451-623 | of all session lists only the one left and the one entered change, also when an update moves a record to the list it is on |
| OwnerProofs.CopyMovesWorkspaces | common_hdrs/aalbus-device.h:232-237 | a session copy hands the whole workspace list over; no workspace is lost exactly when the destination had none |
| OwnerProofs.CounterNeverSaturates | aalkernel/aalbus/aalbus-device.c:409-458 | as long as the pids of a device are distinct its 32-bit counter cannot reach the value at which it stops counting |
| OwnerRuns.StepKeepsSound | aalkernel/aalbus/aalbus-device.c:385-766 | every owner call, whatever is interrupted in it, keeps the lists sound |
| OwnerRuns.NumbersStayExact | aalkernel/aalbus/aalbus-device.c:409-557 | stepping the counter as the code does keeps it the number of owners and within the limit |
| OwnerRuns.StepKeepsGood | aalkernel/aalbus/aalbus-device.c:344-566 | a call keeps sound lists, exact counts and distinct pids exactly when it is not an add whose search gave up because its nested validation was interrupted on a pid that is there |
| OwnerRuns.InterruptedSearchDoubles | aalkernel/aalbus/aalbus-device.c:351-433 | from an empty bus: one device, one session, and the pid 5 added twice, the second time with the nested validation interrupted, end with that pid on the device twice |
| OwnerRuns.RunKeepsSound | aalkernel/aalbus/aalbus-device.c:385-766 | over every run of calls the lists stay sound |
| OwnerRuns.RunKeepsGood | aalkernel/aalbus/aalbus-device.c:409-557 | over every run without such an add m_numowners is the length of the owner list and at most m_maxowners, and the pids of each device are distinct |
| OwnerRuns.StepReplays | aalkernel/aalbus/aalbus-device.c:460-463 | one call extends the events so that replaying them still gives the owners, and its event made sense: an owner added that was none, removed or updated that was one, a device removed that had none |
| OwnerRuns.RunReplays | aalkernel/aalbus/aalbus-device.c:460-463 | over every run with a handler, replaying the events a device was logged with over its owners at the start gives its owners at the end, and each event made sense in that way when it was sent |
| OwnerRuns.RefusedChangesNothing | aalkernel/aalbus/aalbus-device.c:396-443 | a call that does no work leaves lists, counts and events alone; it leaves the semaphore of its device taken exactly when its wait for g_listlock was interrupted, and an add then loses the one record it had made |
| OwnerRuns.InterruptedAddStrands | aalkernel/aalbus/aalbus-device.c:439-443 | one device, one session, an add interrupted in its last wait: nothing but a semaphore left taken and a record lost |
| OwnerRuns.RunWithoutHandler | aalkernel/aalbus/aalbus-main.c:2024-2039 | without a handler nothing is logged over any run |
| OwnerRuns.AnswersTellOwners | aalkernel/aalbus/aalbus-device.c:385-676 | with no wait interrupted, and whatever pids have been doubled before, the answers tell who owns the device: owner or not, duplicate, limit, session or NULL |
| OwnerAnswers.AnswersAre | aalkernel/aalbus/aalbus-device.c:385-766 | with no wait interrupted, the numbers answered: an add 1 when the device has as many owners as it may, 2 for an owner, -1 without memory and else 0; isOwner and update 0 for an owner and 3 for none, remove 1 or 3, the removal of the device 1 or 0 by whether nobody or somebody owns it |
| OwnerAnswers.InvalidTells | aalkernel/aalbus/aalbus-device.c:396-399 | of an invalid device nothing changes: an add answers 3, isOwner, remove and update 4, getOwnerSession NULL, remove of the device 0 |
| OwnerAnswers.InterruptedTells | aalkernel/aalbus/aalbus-device.c:402-443 | interrupted in the wait for either semaphore add, isOwner, remove and update answer 5, the others NULL and 0; lists, counts and events stay |
| OwnerAnswers.LostSearchTells | aalkernel/aalbus/aalbus-device.c:351-354 | with the nested validation interrupted nobody is an owner: 3 or NULL, and an add never answers 2 |
| OwnerAnswers.AnswersTellWork | aalkernel/aalbus/aalbus-device.c:385-638 | an add or update answers 0, a remove 1, exactly when it has done its list work |
| OwnerAnswers.AddMakes | aalkernel/aalbus/aalbus-device.c:428-455 | an add that answers 0 puts one new record at the head of both lists, with the pid and device of the call, its context where the manifest goes and its manifest as the context of the session; all else stays |
| OwnerAnswers.UpdateMakes | aalkernel/aalbus/aalbus-device.c:613-623 | an update that answers 0 puts the record at the head of the session list given, keeps the rest of it, and gives it the session of the caller, workspaces included, which then has none; with no session or its own it keeps that |
| OwnerAnswers.SessionIs | aalkernel/aalbus/aalbus-device.c:650-676 | the session handed out is the one in a record of that device with that pid |
| OwnerAnswers.EventsAre | aalkernel/aalbus/aalbus-device.c:460-463 | with a handler, what a device is logged with grows by the added, removed, updated or device-removed event of the call exactly when that answers 0, 1, 0 or 1; isOwner and getOwnerSession send nothing |
| OwnerAnswers.NoOtherEvents | aalkernel/aalbus/aalbus-main.c:2024-2039 | and nothing is logged of other devices |
| OwnerAnswers.NewDeviceIs | common_hdrs/aaldevice.h:322-325 | a new device is valid and has no owners, the count 0, the limit given, no events; all others stay |
| OwnerRuns.RemoveUndoesAdd | aalkernel/aalbus/aalbus-device.c:515-566 | a remove of the pid just added finds it, answers 1 and restores every list, record, session and count, logging the addition and the removal |
| OwnerRuns.DeviceKeepsGood | common_hdrs/aaldevice.h:322-325 | a new device without owners keeps them |
| OwnerRuns.DestroyKeepsSound | aalkernel/aalbus/aalbus-device.c:130-132 | giving the memory of a device back keeps every record on its two lists exactly when nobody owns the device |
| OwnerRuns.UnregisterNeedsTheAnswer | aalkernel/aalbus/aalbus-main.c:805-812 | for a device whose removal is not interrupted that is exactly when aaldev_remove answers 1, which aalbus_unregister_device does not look at |
| OwnerRuns.OwnersStranded | aalkernel/aalbus/aalbus-device.c:130-132 | otherwise every owner of the device stays behind as a record on no owner list, on the list of its session |
| OwnerRuns.StrandedForGood | aalkernel/aalbus/aalbus-device.c:385-766 | and no later run of owner calls takes such a record off or frees it |
| OwnerRuns.ReinitKeepsSound | aalkernel/aalbus/aalbus-device.c:776-801 | initialising a device anew, as aalbus_register_device does before it refuses one registered already, frees its semaphore; lists and counts stay right exactly when nobody owned it |
| OwnerRuns.SessionStays | aalkernel/aalbus/aalbus-device.c:650-676 | the session in an owner record, which aaldev_getOwnerSession hands out, is in memory at every moment of a run exactly when no call of the run removes that owner |
| OwnerTables.OwnerSession.constructor | common_hdrs/aalbus-device.h:218-223 | a session starts zeroed but for its owner context |
| OwnerTables.SearchPid | aalkernel/aalbus/aalbus-device.c:357-369 | the loop over the node-level owner list finds the first record with the pid |
| OwnerTables.MakeRecord | common_hdrs/aalbus-device.h:268-283 | a record is initialised with both links alone and an empty workspace list |
| OwnerTables.OwnerSessCopy | common_hdrs/aalbus-device.h:230-237 | the fields are copied and the workspace list changes heads |
| OwnerTables.AttachedTables | aalkernel/aalbus/aalbus-device.c:447-451 | inserting both links changes the owner table and the session table by the one record |
| OwnerTables.DetachedTables | aalkernel/aalbus/aalbus-device.c:548-549 | taking both links off changes both tables by the one record |
| OwnerTables.RelistedTables | aalkernel/aalbus/aalbus-device.c:614-623 | moving the session link and handing a workspace list over changes the session table only |
| OwnerTables.OwnerTables.FindPid | aalkernel/aalbus/aalbus-device.c:357-369 | on the lists in memory: the record found is the one in use that the tables say |
| OwnerTables.OwnerTables.Attach | aalkernel/aalbus/aalbus-device.c:445-451 | the node-level insertion of a new record does to the tables what OwnerSpec.Linked says, and all lists stay well-formed circles with every record on its two lists |
| OwnerTables.OwnerTables.Detach | aalkernel/aalbus/aalbus-device.c:548-554 | the same for taking a record off both lists and freeing it |
| OwnerTables.OwnerTables.Relist | aalkernel/aalbus/aalbus-device.c:613-623 | the same for moving a record to a session list, the one it is on included, and copying a session into it |
| OwnerTables.OwnerTables.DoForeachOwner | aalkernel/aalbus/aalbus-device.c:688-706 | the walk over the owners of a device returns the first the callback stops at, or null, changes nothing but what the callback unlinks, and leaves the tables valid exactly when the callback unlinked none of the owners it was called on |
| OwnerTables.OwnerTables.NewDevice | aalkernel/aalbus/aalbus-device.c:796 | a new device has an empty owner list |
| OwnerTables.OwnerTables.NewSessionList | common_hdrs/aalbus-device.h:252 | a new session owns no device |
| OwnerTables.OwnerTables.NewSession | common_hdrs/aalbus-device.h:218-223 | a new session outside a record is as ownerSess_Init makes it |
| OwnerBus.OwnerBus.FindPidOwner | aalkernel/aalbus/aalbus-device.c:344-370 | null exactly when the nested validation was interrupted or no owner has the pid, otherwise the first that has |
| OwnerBus.OwnerBus.SendConfigUpdateEvent | aalkernel/aalbus/aalbus-main.c:2014-2040 | one event for the device when a handler is installed, otherwise none |
| OwnerBus.OwnerBus.AddOwner | aalkernel/aalbus/aalbus-device.c:385-468 | lists, counter, events, semaphores, lost records and answer are those of OwnerSpec.Step, on every path: invalid device, interrupted waits, limit, duplicate pid, no memory |
| OwnerBus.OwnerBus.IsOwner | aalkernel/aalbus/aalbus-device.c:481-503 | likewise; nothing but the answer comes of it |
| OwnerBus.OwnerBus.RemoveOwner | aalkernel/aalbus/aalbus-device.c:515-566 | likewise; success answers 1 |
| OwnerBus.OwnerBus.UpdateOwner | aalkernel/aalbus/aalbus-device.c:580-638 | likewise |
| OwnerBus.OwnerBus.GetOwnerSession | aalkernel/aalbus/aalbus-device.c:650-676 | likewise; the session returned is the one in the record of the owner |
| OwnerBus.OwnerBus.Remove | aalkernel/aalbus/aalbus-device.c:731-766 | likewise; refused while the device has owners |
| OwnerBus.OwnerBus.CountUp | aalkernel/aalbus/aalbus-device.c:456-458 | the counter steps up unless it is at its top |
| OwnerBus.OwnerBus.CountDown | aalkernel/aalbus/aalbus-device.c:557 | the counter steps down without a look, wrapping at 32 bits |
| OwnerBus.OwnerBus.NewDevice | common_hdrs/aaldevice.h:322-325 | a created device has no owners and is valid once registered |
| OwnerThreads.LocksMoved | aalkernel/aalbus/aalbus-device.c:401-466 | each lock is held by the one thread that is where a holder is |
| OwnerThreads.SearchedKept | aalkernel/aalbus/aalbus-device.c:344-370 | list work on one device does not change what a search of another finds |
| OwnerThreads.InvKept | aalkernel/aalbus/aalbus-device.c:385-766 | every step of every thread keeps the lock discipline, what each thread has found out, and the lists sound |
| OwnerThreads.StepSettles | aalkernel/aalbus/aalbus-device.c:385-766 | every step either leaves the state unchanged, seen through the locks, or does one whole call of OwnerSpec.Step to it |
| OwnerThreads.RunIsSerial | aalkernel/aalbus/aalbus-device.c:385-766 | any interleaving is a serial run of the calls that have taken effect, in each thread in its own order with the answers it gets |
| OwnerThreads.OrderIsInTime | aalkernel/aalbus/aalbus-device.c:385-766 | at any moment the calls that have returned are in the serial order so far, and of a thread's other calls at most the one it is in: a call that returns before another starts comes before it |
| OwnerThreads.CompleteRunIsSerial | aalkernel/aalbus/aalbus-device.c:385-766 | when all threads have returned, lists, counts, events, left-taken semaphores and every answer are those of some serial order of all calls, each thread's in its order |
| OwnerThreads.FreeDevicesStayGood | aalkernel/aalbus/aalbus-device.c:409-557 | at every moment of a run in which no nested validation was interrupted, whoever is still under way: pids are distinct, and each device whose semaphore nobody holds has its exact count, within its limit |
| OwnerThreads.FreeDeviceReplays | aalkernel/aalbus/aalbus-device.c:460-463 | and replaying the events of such a device over its owners at the start gives its owners now |
| OwnerThreads.ThreadsKeepGood | aalkernel/aalbus/aalbus-device.c:409-557 | when all have returned, the same holds of every device |
| OwnerThreads.LocksAreOrdered | aalkernel/aalbus/aalbus-device.c:401-466 | two locks a thread holds never have the same rank, so at most one device semaphore and never both list locks, and with two locks it waits for none |
| OwnerThreads.LocksAreHeld | aalkernel/aalbus/aalbus-device.c:344-466 | a thread has the allocation-list lock exactly while it validates its device, at first or in the search, g_listlock exactly while it works on the lists, and a device semaphore exactly from when it got it to its return |
| OwnerThreads.WaitsUpwards | aalkernel/aalbus/aalbus-device.c:401-466 | a thread waits only for locks that rank above those it holds: device semaphore before list locks |
| OwnerThreads.NoCircularWait | aalkernel/aalbus/aalbus-device.c:401-466 | no chain of threads, each waiting for a lock the next one holds, comes back to its start |
| OwnerThreads.Progress | aalkernel/aalbus/aalbus-device.c:401-466 | an unfinished thread that does not wait for a semaphore left taken means that some thread can go on, as long as the sources of updates at their list work are still in memory |
| OwnerThreads.StopsOnlyWhereStuck | aalkernel/aalbus/aalbus-device.c:402-405 | in a run that cannot go on, interrupted anywhere, every thread with calls left waits for a device semaphore that was left taken |
| OwnerThreads.OwnSourcesAreThere | aalkernel/aalbus/aalbus-device.c:613-618 | the sources are in memory at every moment when each update names a session outside all records or the very session of the owner it updates |
| OwnerThreads.NoDeadlock | aalkernel/aalbus/aalbus-device.c:439-443 | a run that cannot go on although no wait for g_listlock was interrupted is one in which every thread has made all its calls |
| OwnerThreads.RunsEnd | aalkernel/aalbus/aalbus-device.c:385-766 | every run has at most as many steps as the bound computed from the programs |
| OwnerThreads.StuckForGood | aalkernel/aalbus/aalbus-device.c:402-443 | over runs of owner calls a device semaphore left taken by an interrupted wait for g_listlock never comes free, and no call on that device that has not got it yet ever gets inside: it waits, or answers interrupted or invalid |
| OwnerSchedules.CallCanBeMade | aalkernel/aalbus/aalbus-device.c:385-766 | any call that is allowed can be made by a thread whose turn it is while nobody else is in a call, with the effect and answer of OwnerSpec.Step |
| OwnerSchedules.SerialCanHappen | aalkernel/aalbus/aalbus-device.c:385-766 | so every serial order of calls, each thread's in turn, is the outcome of some interleaving |
| OwnerSchedules.OutcomesAreSerial | aalkernel/aalbus/aalbus-device.c:385-766 | for any programs of any number of threads: a final state and answers can come of an interleaving if and only if they come of some order of the calls made one by one |
| OwnerSchedules.SessionDangles | aalkernel/aalbus/aalbus-device.c:650-676 | two threads, one asking for the session of an owner and one removing it: the first can be left with a pointer to a session no longer in memory, because the semaphore is free before it returns |
| RegistrySpec.EffectSound | aalkernel/aalbus/aalbus-main.c:717-817 | the allocation list has each device at most once and only devices in memory; every registered device is on it |
| RegistrySpec.RunTakesBus | aalkernel/aalbus/aalbus-main.c:737-750 | after any run the bus semaphore is taken exactly when it was at the start or some registration got it and was interrupted in its second wait |
| RegistrySpec.TakenForGood | aalkernel/aalbus/aalbus-main.c:737-741 | from then on every registration of the run answers -1 and changes nothing |
| RegistrySpec.InterruptedRegisterKeepsBus | aalkernel/aalbus/aalbus-main.c:737-750 | one device created and its registration interrupted in the second wait: the semaphore is taken, the list empty |
| RegistryLinks.EffectRefines | aalkernel/aalbus/aalbus-main.c:717-817 | on next and prev pointers, each operation that links no device again does what it does to the list |
| RegistryLinks.RelistGoesRound | aalkernel/aalbus/aalbus-main.c:748 | linking a device that is on the list makes the walk from the head go round through it and what was in front of it |
| RegistryLinks.EffectGoesRound | aalkernel/aalbus/aalbus-main.c:717-817 | and no operation, destroying devices and giving their memory out again included, brings it back to the head |
| RegistryLinks.RunTells | aalkernel/aalbus/aalbus-main.c:717-2279 | over any run of create, register, unregister and destroy, relisting included: the walk over the allocation list ends exactly when no device was linked while on it, and then a handle is accepted exactly when the operations on it alone have left it there |
| RegistryLinks.CreatedThenRegistered | aalkernel/aalbus/aalbus-device.c:252-314 | registering the device that aaldev_create_device has just listed, as that function itself does unless told not to, always links it again |
| RegistryLinks.RefusedThenRegistered | aalkernel/aalbus/aalbus-main.c:748-760 | so does registering once more a device that the driver core refused |
| RegistrySpec.DestroyedStaysOut | aalkernel/aalbus/aalbus-device.c:123-139 | a destroyed device is never accepted until it is registered again or its memory goes to a device that aaldev_create_device lists |
| RegistrySpec.RegisteredTells | aalkernel/aalbus/aalbus-main.c:733-775 | a registration answers 0 exactly when it takes a device from not registered to registered, and -1 otherwise |
| RegistrySpec.DestroyedTells | aalkernel/aalbus/aalbus-device.c:123-141 | a destroy answers 1 exactly when the device leaves memory; otherwise nothing changes and it answers 252 for a device that was accepted, interrupted in the second wait, and -22 for any other |
| RegistrySpec.MadeAs | common_hdrs/aaldevice.h:328-331 | a device is made with version 0x1000000000200 and its own address as validator, unregistered |
| Registry.Search | aalkernel/aalbus/aalbus-main.c:2250-2259 | the walk over the allocation list finds a handle exactly when it is on it |
| Registry.Bus.Create | common_hdrs/aaldevice.h:256-346 | a created device has its version and validator, and is on no list |
| Registry.Bus.CreateDevice | aalkernel/aalbus/aalbus-device.c:186-312 | as aaldev_create_device up to its registration: the device is made and heads the list, or its memory is given back when the wait for the list is interrupted |
| Registry.Bus.ValidateDevice | aalkernel/aalbus/aalbus-main.c:2219-2279 | accepted exactly when on the list with matching validator and version and the lock was got; the fields of a handle are read only when it was found |
| Registry.Bus.RegisterDevice | aalkernel/aalbus/aalbus-main.c:717-776 | of any device in memory: links it on every path past both waits; interrupted in the second one the bus semaphore stays taken; refused by the driver core it stays listed; when it was on the list already flag, semaphore and answer are the same but the list goes round |
| Registry.Bus.DestroyDevice | aalkernel/aalbus/aalbus-device.c:102-142 | a valid device leaves the list and its memory is given back, answering 1; otherwise nothing happens, and the answer is -EINVAL, or 252 when the wait for the allocation list was interrupted |
| Registry.Bus.UnregisterDevice | aalkernel/aalbus/aalbus-main.c:807-817 | what aalbus_unregister_device does once it has called the remove method: the device is destroyed when its last reference goes, and otherwise its flag cleared; a device not registered is left alone |
| DeviceLife.ActKeepsJoined | aalkernel/aalbus/aalbus-main.c:717-817 | over the whole life of devices, owner calls in between: aaldev_valid accepts exactly the devices on the allocation list, and those that can have owners are those in memory |
| DeviceLife.ActKeepsWf | aalkernel/aalbus/aalbus-main.c:717-817 | creating, registering, unregistering with the ignored answer of the remove method, destroying, or an owner call keeps the lists sound exactly when it does not destroy or initialise anew a device that somebody owns |
| DeviceLife.StripsStrands | aalkernel/aalbus/aalbus-main.c:803-813 | and if it does, every owner of the device becomes a record on no owner list |
| DeviceLife.RunSound | aalkernel/aalbus/aalbus-main.c:717-817 | over any run of all of these the lists are sound at the end if and only if no device was registered again, unregistered to its last reference or destroyed while somebody owned it |
| DeviceLife.ActKeepsGood | aalkernel/aalbus/aalbus-main.c:717-817 | sound lists, exact counts and distinct pids are kept exactly when the act does neither that nor add a pid twice |
| DeviceLife.UnregisterAnnounces | aalkernel/aalbus/aalbus-main.c:803-813 | unregistering a device to which references are left announces its removal exactly when nobody owns it; the device stays valid, its flag clear |
| DeviceLife.RunStaysGood | aalkernel/aalbus/aalbus-main.c:717-817 | over any run without these, counts are exact and within limits, pids distinct, and with a handler the events of each device since it was made tell who owns it |
| DeviceLife.FromNothing | aalkernel/aalbus/aalbus-main.c:717-817 | all of this from an empty bus |
| DeviceLife.SecondRegistrationStrips | aalkernel/aalbus/aalbus-main.c:723-734 | a device made, registered, owned and registered again: the second registration answers -1 and leaves the owner on no list of a device |
| DeviceId.Passes | aalkernel/aalbus/aalbus-main.c:1803-1915 | the checks, in the order of the code, pass exactly when the device agrees with the wanted identity in everything the mask asks for |
| DeviceId.MatchesIs | common_hdrs/aalbus-device.h:167-178 | what that is, bit by bit: 0x2 vendor, 0x4 AHM GUID, 0x8 low word of the AFU GUID, 0x10 PIP GUID, 0x20 everything, 0x40 subdevice, 0x80 bus type, 0x100 device type, 0x200 the whole address, 0x400 device, 0x800 bus, 0x1000 socket number |
| DeviceId.MatchesBoth | aalkernel/aalbus/aalbus-main.c:1803-1915 | matching two masks at once is matching each of them |
| DeviceId.WholeImpliesParts | common_hdrs/aalbus-device.h:167-178 | the ADDR bit implies every address-field bit, the DEVID bit all bits |
| DeviceForest.PreorderIsUnder | aalkernel/aalbus/aalbus-main.c:1935-1941 | the depth-first order lists exactly the device and what is below it |
| DeviceForest.ParentsFirst | aalkernel/aalbus/aalbus-main.c:1916-1941 | in that order every device comes after its parent |
| DeviceForest.PreorderAllConcat | aalkernel/aalbus/aalbus-main.c:1935-1971 | and everything below one device before everything below the next |
| DeviceForest.FirstExactIsFirst | aalkernel/aalbus/aalbus-main.c:1916-1927 | exact search: none exactly when none has the identity, otherwise the first in order |
| DeviceForest.ExactFindsAll | aalkernel/aalbus/aalbus-main.c:1954-1976 | exact lookup is NULL exactly when no device reachable from the bus list has the identity |
| DeviceForest.MaskedFindsFirst | aalkernel/aalbus/aalbus-main.c:1803-1915 | masked lookup finds the first bus-listed device that matches, exactly when one does |
| DeviceForest.FoundIsFirst | aalkernel/aalbus/aalbus-main.c:1782-1976 | a lookup without a mask returns the first device with the identity of all below the bus, one with a mask the first on the bus itself that matches, and NULL exactly when there is none |
| DeviceForest.ItrGetDevice | aalkernel/aalbus/aalbus-main.c:1782-1942 | the recursive iterator ends, and writes the result of the search of one tree into the parameter block |
| DeviceForest.ForEach | aalkernel/aalbus/aalbus-main.c:1971 | calling it on one device after the other until it says stop finds the result over all of them |
| DeviceForest.GetDevice | aalkernel/aalbus/aalbus-main.c:1954-1976 | lookup under the bus semaphore; NULL when the wait is interrupted |
| ConfigEvents.ConfigUpdateEvent | aalkernel/aalbus/aalbus-main.c:2051-2110 | the handler hears of the device and then of everything below it, depth first |
| ConfigEvents.HandlerSlot.RegisterConfigUpdateHandler | aalkernel/aalbus/aalbus-main.c:2123-2174 | a second handler is refused; interrupted first, nothing changes; interrupted second, the handler is installed but told nothing; otherwise it is told of every device of every tree |
| ConfigEvents.ToldOncePerAncestor | aalkernel/aalbus/aalbus-main.c:2051-2173 | a device is told of once for each bus-listed device that is it or an ancestor of it |
| ConfigEvents.EveryBusDeviceIsTold | aalkernel/aalbus/aalbus-main.c:2051-2173 | so at least once for each device on the bus |
| ConfigEvents.ForestTold | aalkernel/aalbus/aalbus-main.c:2051-2173 | and altogether as often as the trees of the bus list have devices |
| ServiceSpec.FindIsDirectory | common_hdrs/aalinterface.h:136-148 | looking an ID up in the list agrees with the map from ID to interface |
| ServiceSpec.RunIsDirectory | common_hdrs/aalinterface.h:158-207 | over any run no two registered interfaces share an ID, and lookup agrees with the map kept by entering free IDs and removing own ones |
| ServiceSpec.RegisteredTells | common_hdrs/aalinterface.h:158-177 | a registration answers 0 exactly when it is not interrupted and the ID is free: the interface then heads the list, its flag set; -2 interrupted, -1 with the ID taken, nothing changed |
| ServiceSpec.UnregisteredTells | common_hdrs/aalinterface.h:187-207 | an unregister answers 0 exactly when it is not interrupted and the ID is there: the interface passed is then off the list, its flag clear, all others where they were; else -2 or -1, nothing changed |
| ServiceSpec.RunKeepsFlags | aalkernel/aalbus/aalbus-main.c:1636-1678 | over any run the flag of every interface says whether it is on the list |
| ServiceSpec.GotTells | aalkernel/aalbus/aalbus-main.c:1693-1716 | a get answers an interface exactly when it hands that out, and none exactly when it changes nothing |
| ServiceSpec.GotIsDirectory | aalkernel/aalbus/aalbus-main.c:1693-1716 | with all modules there it answers what the directory has for the ID, interrupted or not, and none of a module that is going |
| ServiceSpec.UnregisterFreesItsOwnId | common_hdrs/aalinterface.h:197-203 | an unregister that answers 0 frees the ID exactly when the interface passed was itself on the list |
| ServiceSpec.UnregisterOfAnother | common_hdrs/aalinterface.h:197-203 | two interfaces with one ID: unregistering the one not on the list answers 0 and leaves the other |
| ServiceSpec.RunKeepsRefs | aalkernel/aalbus/aalbus-main.c:1693-1745 | over any run, whatever is interrupted, the references on a module change by exactly the handles out on its interfaces |
| ServiceSpec.StepKeepsCounts | aalkernel/aalbus/aalbus-main.c:1693-1742 | m_count stays the number of handles out exactly when the operation is not a release whose wait is interrupted, nor such a get of an ID that is there of a module that stays |
| ServiceSpec.InterruptedGetMiscounts | aalkernel/aalbus/aalbus-main.c:1708-1712 | one interface and a get whose wait is interrupted: a handle is out and the count is 0 |
| ServiceSpec.RunKeepsCounts | aalkernel/aalbus/aalbus-main.c:1708-1742 | over any run without such interruptions m_count is the number of handles out |
| ServiceSpec.RunKeepsCountsUp | aalkernel/aalbus/aalbus-main.c:1733-1738 | over any run, whatever is interrupted, no count goes below 0 |
| ServiceSpec.ReleasedTells | aalkernel/aalbus/aalbus-main.c:1727-1745 | a release takes one off the count exactly when there is one and its wait is not interrupted, and changes no other interface |
| ServiceBus.Find | common_hdrs/aalinterface.h:136-148 | the loop over the nodes finds the first interface with the ID |
| ServiceBus.Bus.InterfaceAdd | common_hdrs/aalinterface.h:158-177 | -2 interrupted, -1 when the ID is there, otherwise the interface heads the list |
| ServiceBus.Bus.InterfaceDel | common_hdrs/aalinterface.h:187-207 | -2 interrupted, -1 when the ID is not there, otherwise the interface passed leaves its list |
| ServiceBus.Bus.RegisterServiceInterface | aalkernel/aalbus/aalbus-main.c:1636-1651 | as ServiceSpec.Registered, flag included |
| ServiceBus.Bus.UnregisterServiceInterface | aalkernel/aalbus/aalbus-main.c:1663-1678 | as ServiceSpec.Unregistered, flag included |
| ServiceBus.Bus.GetServiceInterface | aalkernel/aalbus/aalbus-main.c:1693-1716 | as ServiceSpec.Got: the module reference is taken before the wait and kept when that is interrupted |
| ServiceBus.Bus.ReleaseServiceInterface | aalkernel/aalbus/aalbus-main.c:1727-1745 | as ServiceSpec.Released: the reference is given back on both paths, the count never goes below 0 |
| ServiceBus.Bus.HasInterface | aalkernel/aalbus/aalbus-main.c:1755-1759 | whether the ID is registered |
| DriverSpec.FailedInitRestores | aalkernel/aalbus/aalbus-main.c:1294-1316 | whichever step of a bring-up fails, the kernel holds what it did and driver and class device are as clean as on entry |
| DriverSpec.InitHolds | aalkernel/aalbus/aalbus-main.c:1210-1292 | a bring-up that succeeds holds exactly the number region, driver, char device and class device asked for |
| DriverSpec.ReleaseRestores | aalkernel/aalbus/aalbus-main.c:1329-1372 | a release after it restores what was held exactly when no node was asked for, the major is dynamic, or m_major equals the one asked for |
| DriverSpec.ReleaseOfStatic | aalkernel/aalbus/aalbus-main.c:1364-1369 | otherwise the static region stays taken and the region numbered m_major is given back instead |
| DriverSpec.RunKeepsFlags | aalkernel/aalbus/aalbus-main.c:1163-1372 | for any number of drivers and any failing steps, clean entry or not, the flags of driver, char device and class device say exactly which of these the kernel has; number regions are the rows below |
| DriverSpec.InitSucceeds | aalkernel/aalbus/aalbus-main.c:1163-1317 | a bring-up answers 0 exactly when the arguments are in order, the region if any is given, and neither driver nor class device is registered or refused |
| DriverSpec.FirstFailureAnswers | aalkernel/aalbus/aalbus-main.c:1163-1317 | a bring-up answers for the first thing that goes wrong: -22 for the arguments, what the kernel answered for the region, -22 for a driver registered already, what the kernel answered for the driver and the char device, -22 for a class device registered already, what the kernel answered for that |
| DriverSpec.StageAnswers | aalkernel/aalbus/aalbus-main.c:1384-1493 | registering a driver, or a class device, answers 0 exactly when it was not registered and is now, -22 when it was registered already, else what the core answered, nothing having changed in the kernel |
| DriverSpec.InitNames | aalkernel/aalbus/aalbus-main.c:1180-1200 | the driver keeps its name, or gets that of the call when it has none and a module calls |
| DriverSpec.InitMajor | aalkernel/aalbus/aalbus-main.c:1215-1245 | m_major changes to a number given out dynamically and to nothing else |
| DriverSpec.ClassDeviceIs | aalkernel/aalbus/aalbus-main.c:1275-1292 | a class device brought up has the name of the call and the number of its node |
| DriverSpec.UpKeepsRegions | aalkernel/aalbus/aalbus-main.c:1210-1316 | when each flagged region is the one its m_major names, all are distinct, and the kernel has these and those at the start: a bring-up with given answers keeps that exactly when KeepsRegions, a test of flags, request and answers, says so |
| DriverSpec.SafeKeepsRegions | aalkernel/aalbus/aalbus-main.c:1210-1316 | it does so whatever the kernel answers if and only if the caller can see before the call that it is refused or asks for a number in use, or that the driver has no region and asks for none, a dynamic one or the one in m_major, or has something registered already that makes it fail |
| DriverSpec.RequestsKeepRegions | aalkernel/aalbus/aalbus-main.c:1163-1372 | for any sequence of requests of any number of drivers: the regions are right at every moment whatever the kernel answers if and only if every bring-up is safe in this sense when it comes |
| DriverSpec.DownKeepsRegions | aalkernel/aalbus/aalbus-main.c:1329-1372 | a release always keeps it, and takes away exactly the region of its driver, or none |
| DriverSpec.RunKeepsRegions | aalkernel/aalbus/aalbus-main.c:1163-1372 | over any run of such bring-ups and any releases, of any number of drivers with any failing steps, the kernel has exactly the regions obtained and not given back, each told by its driver |
| DriverSpec.SafeRunKeepsRegions | aalkernel/aalbus/aalbus-main.c:1163-1372 | a run of safe bring-ups is such a run |
| DriverSpec.ReleaseGivesBackOwn | aalkernel/aalbus/aalbus-main.c:1329-1372 | so a driver gives back the one region it obtained, and no other, whatever other drivers have done in between |
| DriverSpec.SecondBringUpLeaks | aalkernel/aalbus/aalbus-main.c:1210-1316 | a driver brought up twice: the second one is refused, its rollback clears the flag, and the first region stays with the kernel |
| DriverSpec.StaticReleaseTakesAnothers | aalkernel/aalbus/aalbus-main.c:1364-1369 | a driver with a static number whose m_major is that of another one gives the region of the other back |
| DriverBus.Bus.InitDriver | aalkernel/aalbus/aalbus-main.c:1163-1317 | the staged bring-up with its rollback does what DriverSpec.Init says |
| DriverBus.Bus.ReleaseDriver | aalkernel/aalbus/aalbus-main.c:1329-1372 | the release does what DriverSpec.Release says |
| DriverBus.Bus.RegisterDriver | aalkernel/aalbus/aalbus-main.c:1384-1418 | a driver registered already is refused |
| DriverBus.Bus.RegisterClassDevice | aalkernel/aalbus/aalbus-main.c:1461-1493 | a class device registered already is refused |
| CsrSpec.WordRoundTrip | common_hdrs/ahmpip.h:603-608 | a 64-bit value stored low byte first is read back as it was |
| CsrSpec.BytesOfWord | common_hdrs/ahmpip.h:503-516 | and eight bytes read as a value are the bytes of that value |
| CsrSpec.LayoutIs | common_hdrs/ahmpipdefs.h:91-98 | in numbers: a set writes the eight bytes at its offset and, below 0x10000, those 0x100000 on; a get reads 0x100000 on; an index counts 128 bytes |
| CsrSpec.BytesAfterSets | common_hdrs/ahmpip.h:557-612 | over any run of sets at any offsets in the buffer, overlapping, misaligned or beyond the write region, each byte is that of the last set that writes it, at its offset or in the copy, and otherwise what it was |
| CsrSpec.GetsLastBytes | common_hdrs/ahmpip.h:476-612 | so is each byte of the value that a get at any offset returns |
| CsrSpec.WordAfterSets | common_hdrs/ahmpip.h:557-612 | a word that every set of the run writes wholly or not at all has the last value set there |
| CsrSpec.SetBeyondIsGot | common_hdrs/ahmpip.h:591-612 | a set beyond the write region lands in the read region and is got from there, AFU offsets included |
| CsrSpec.GetAfterSet | common_hdrs/ahmpip.h:503-612 | for multiples of 8 a set changes what is got at its own offset only, and only below the AFUs, or, set beyond the write region, at the word of the read region it lands on |
| CsrSpec.GetsLastSet | common_hdrs/ahmpip.h:476-612 | over any run of sets of whole registers by offset or index a get below AHMPIP_AFU_BASE returns the last value set there, one at or above it what was there before |
| CsrSpec.NewGetsLastSet | common_hdrs/ahmpip.h:371-373 | from a cleared aperture: 0 where nothing was set |
| CsrSpec.ChannelsDoNotAlias | common_hdrs/ahmpipdefs.h:136-140 | registers of distinct channels, or distinct ones of one channel, are at least 128 bytes apart, at 0x2000 + 0x1000 n + 128 r, below the AFUs, and have the index of their offset |
| CsrSpec.AfusDoNotAlias | common_hdrs/ahmpipdefs.h:143-153 | registers of distinct AFUs are distinct and not below AHMPIP_AFU_BASE |
| CsrSpec.SetOnlyOneChannel | common_hdrs/ahmpipdefs.h:136-140 | setting a register of one channel changes what is got from no other |
| CsrAperture.Aperture.Set | common_hdrs/ahmpip.h:591-612 | the bytes after a 64-bit set at any offset in the buffer |
| CsrAperture.Aperture.SetIdx | common_hdrs/ahmpip.h:557-579 | by index: the same at 128 times the index, in 64 bits |
| CsrAperture.Aperture.Get | common_hdrs/ahmpip.h:503-516 | the read region, not the write region, is read |
| CsrAperture.Aperture.GetIdx | common_hdrs/ahmpip.h:476-491 | by index: the same at 128 times the index, in 64 bits |
| CsrAperture.AllocAperture | common_hdrs/ahmpip.h:323-377 | an aperture is made only of pages aligned to its size, and all of it is cleared |
| DescRing.ForwardIsRing | common_hdrs/ahmpipdefs.h:109-118 | a step stays in the buffer exactly when it goes round at most once, and is then RING_FWD on slot indices |
| DescRing.ForwardStaysIn | common_hdrs/ahmpipdefs.h:109-118 | so for up to a whole round |
| DescRing.StepsAreOne | common_hdrs/ahmpipdefs.h:109-118 | k single steps from any line are one step of k modulo 1024 |
| DescRing.BackwardUndoesForward | common_hdrs/ahmpip.h:834-835 | RING_BWD undoes RING_FWD and the other way round, for any ring size |
| DescRing.BackwardInRing | common_hdrs/ahmpip.h:834-835 | going back gives a slot of the ring exactly up to a whole round past the start, or by whole rounds; otherwise a negative number |
| DescRing.LengthIsTheStep | common_hdrs/ahmpip.h:833-834 | RING_FLEN is the one step below the ring size that leads from x to y |

## Left out

- The driver core (`device_register`, `driver_register`, `cdev_add`, `try_module_get`, `bus_for_each_dev`): its answers are arguments, its walks plain loops over a given forest.
- Debug printing, sysfs attributes, canaries, uevents, and everything inside `#if 0`.
- aalkernel/aalbus_windows/aalbus-device.c: a near copy of the Linux owner code without the list lock and the events.
- Event constructors, `aalbus_process_configmon_event`, the `acpm_*` tasks and sessions, `aaldev_quiesce` (a stub), the default-method tables and 32-bit CSR access.
- The interrupt pending and clear scheme of the SPL channels: it exists as a hardware comment only.
- Reclaimed memory: a freed record or device is no longer in the maps of what is in memory; its old contents are not modelled. `aalbus_unregister_device` clears a flag of a device after its last reference is gone; the model clears it only when the device is still there.
- `kosal_virt_to_phys` is the identity; any fixed one-to-one map would do.
- The session list of a driver, re-initialised on every bring-up, and NULL bus or driver pointers in `aalbus_init_driver` and `aalbus_release_driver`.
- Lookup, registration, service calls and queue operations other than the locks of swaps are modelled one call at a time; threads are modelled for the owner operations. The set of valid devices and the installed handler do not change while threads run, so a device destroyed between its validation and the wait for its semaphore is not covered, and the handler takes none of the locks.
- Work under a held lock is one step of a thread: the two list operations of an owner call under `g_listlock`, and the search under the device semaphore.
- OwnerTables.OwnerTables.DoForeachOwner: when the callback takes owners off the list itself, what is left of the tables is told by `KosalWalk.Walked` alone; later owner calls are not, because the records would be on one list only.
- KosalWalk.ForEachSafe: the callback may unlink the item it is called on and stop the walk, not change other items of the list, which the source does not allow either. `aaldev_doForeachOwner` takes no lock, so another thread may; that is not part of this model.
- Registry.Bus.UnregisterDevice: begins after the call of the remove method, which is OwnerBus.OwnerBus.Remove in memory; the two together are in DeviceLife, on values.
- DeviceLife.RunSound: is about runs in which no device is linked while it is on the list; RegistryLinks has those.
- DriverSpec.SafeKeepsRegions: takes it that the kernel has a major number left to give out.
- What `aaldev_create_device` does when its own registration fails (aalkernel/aalbus/aalbus-device.c:314-325) and the addition event of a registration.
- What a list operation writes to freed memory in `RegistryLinks` is kept as if nobody else used that memory.
- ServiceSpec.RunKeepsCounts: `m_count` is unbounded here; the 31 bits of the original do not fill up while each count is a handle somebody holds.
- CsrSpec.GetsLastSet: speaks of whole registers set in the write region; sets at any other offset are in CsrSpec.BytesAfterSets and CsrSpec.GetsLastBytes.
- CsrAperture.Aperture.Set: asks that the eight bytes are in the aperture, as the original does not; a store outside would change memory that is not part of this model. SetIdx, Get and GetIdx ask the same. That m_wbase and m_rbase are the two ends of the aperture follows the layout comments; the code that sets them is not part of this model.
