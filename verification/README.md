# mtdpartikr, modelled and verified in Dafny

mtdpartikr is a Linux kernel module that re-partitions MTD flash while the
system runs. This project models the three parts of it that carry real
obligations and proves what they guarantee:

1. **The partition recipe** (`Flash`, `Recipe`, `Publication`, `RecipeDevice`,
   `BlockMap`, `Batch`, `Listing`): a list of byte ranges edited by ioctls, checked by a
   pairwise overlap scan, listed to user space and compiled into the array
   that is given to the MTD core. `Recipe` says as values what every call does,
   branch for branch; the class `RecipeDevice.ControlDevice` does it in place
   and is proved equal to that. `BlockMap` proves that the list simulates a map
   from erase block to owning part.
2. **The respawn protocol** (`Respawn`, `RespawnInvariant`, `RespawnSafety`,
   `RespawnCalls`, `RespawnEffect`, `RespawnProgress`, `RespawnDeadlock`): two
   mutexes, a flag and a use counter that is read without its lock. It is a
   transition system over any number of threads with one transition per lock
   operation, shared read or write, and core call. `RespawnCalls` says what each
   kind of call returns and does under every interleaving. `LiveTable` has the
   direct edits of the live table.
3. **Module load and unload** (`Enumeration`, `DeviceClass`): a counting pass
   and an acquiring pass over one device table, references, and unwinding.

`dafny verify dfyconfig.toml` checks everything.

## Where the code departs from its intent

The code is modelled as it is. Each departure has an exact condition and a
concrete input or run; where the intended code is a small change, what it would
guarantee is proved beside it.

- Deleting a recipe part leaves `parts_count` as it was. The published array is
  exactly the recipe if and only if nothing was deleted since the last restart,
  and the BUG_ON on an empty list is hit if and only if everything added was
  deleted (`Publication.PublishAfterRun`, `DeleteBreaksPublish`; over every
  interleaving `RespawnSafety.ConversionEnds`; with the decrement
  `Publication.PublishWithDecrement`).
- The relative-index walk never advances its index. A relative index resolves
  to its listed entry exactly when it is 0 or past the end
  (`LiveTable.ResolveMeaning`, `SecondDoesNotResolve`; with the increment
  `CountingResolves`).
- LIST_RECIPE_PARTS and a respawn take the two locks in opposite orders. Begun in
  a quiet state the two can be scheduled into a deadlock if and only if the
  respawn is a delete or a create of a recipe with parts; it is permanent; and of
  the driver's own two locks it is the only way for calls to block each other,
  so as long as no list runs beside a respawn all calls finish, unless one halts
  at the empty-list BUG_ON
  (`RespawnDeadlock.DeadlockIff`, `DeadlockReachable`, `DeadlockPermanent`,
  `RespawnProgress.StuckMeans`, `CallsFinishUnpaired`).
- The NAND filter tests for NOR flash. It selects what its name says exactly on
  tables without NOR and plain NAND masters (`Enumeration.FilterMeaning`,
  `NandFilterFails`).
- A refused reference is rolled back under the table lock, with a put that takes
  that lock, and the array is freed twice. The load returns exactly when there
  is nothing to roll back at that point (`DeviceClass.DevClass.GetAllMatching`;
  runs in `RefuseOnlyDevice` and `RefuseSecondDevice`; repaired in
  `DevClass.GetAllRepaired`). Every later failure does restore all references.
- A failed device creation leaves the character device region registered, and
  nothing else (`DeviceClass.DevClass.Init`; run in `FailFirstCreation`).

## Assumptions

The erase size is positive. Allocation, user copies and calls into the MTD core
are parameters: they may succeed or fail. In the protocol a core call that fails
itself changes nothing, so a failed register leaves the device unregistered; an
edit of the live table that succeeds may leave any table. Whoever puts a reference owns one; references
may change hands. All file references below are to the repository's own files.

## Model

| member | source | states |
|---|---|---|
| Flash.VerifyBasicMeaning | kernel/ctrl_dev.c:115-159 | the overflow, bounds and alignment checks together accept exactly the nonempty runs of whole erase blocks inside the device, whatever the device size |
| Flash.IsolatedIffAligned | README.md:95-100 | every erase block that meets a nonempty range lies inside it if and only if both ends are block boundaries: why the driver insists on alignment |
| Flash.EraseMeaning | kernel/proxy_mtd_dev.c:54-59 | after an erase a byte reads 0xff exactly if it lies in the byte range of an erased block, and is otherwise as it was |
| Flash.EraseStaysInside | kernel/proxy_mtd_dev.c:54-59 | erasing any blocks an aligned range touches changes no byte of a disjoint aligned range |
| Recipe.ScanMeaning | kernel/ctrl_dev.c:76-113 | on good parts the pairwise scan never reaches an overflow BUG_ON and rejects exactly the ranges that overlap some part |
| Recipe.OpenExclusive | kernel/ctrl_dev.c:46-74 | after any run a further open succeeds, on an empty recipe, iff no open has succeeded since the last release; otherwise it is -EBUSY and changes nothing |
| Recipe.AddMeaning | kernel/ctrl_dev.c:161-204 | an add returns 0, -EINVAL or -ENOMEM exactly by whether the range fits beside the list and memory is there, and keeps the recipe valid |
| Recipe.DelValid | kernel/ctrl_dev.c:206-231 | a delete keeps parts whole, disjoint and covered by the counter |
| Recipe.RunValid | kernel/ctrl_dev.c:76-231 | every run of open, release, add, delete and restart keeps the recipe valid, and no call in it stops at an overflow BUG_ON |
| BlockMap.AddSimulates | kernel/ctrl_dev.c:96-204 | the list accepts a range exactly when all its erase blocks are free in the block map, and then it owns exactly those |
| BlockMap.DelSimulates | kernel/ctrl_dev.c:206-231 | a delete frees exactly the blocks of the part it removes |
| BlockMap.RunSimulates | kernel/ctrl_dev.c:33-231 | over every run the list and the block map return the same codes and stay related |
| BlockMap.OwnerMeaning | kernel/ctrl_dev.c:96-113 | in the block map of a disjoint list, the owner of a block is the one part that covers it, and every owned block is covered |
| BlockMap.RunPacking | kernel/ctrl_dev.c:96-204 | in every reachable recipe the lengths sum to at most the device size and there are at most as many parts as erase blocks, in any insertion order |
| BlockMap.RunIsolation | kernel/ctrl_dev.c:142-156 | in every reachable recipe, erasing blocks one part touches changes no byte of another part |
| Batch.BatchMeaning | kernel/ctrl_dev.c:96-204 | a batch of adds is accepted in full if and only if each request is valid beside the list and no two overlap, and is then stored in order |
| Batch.OrderIndependence | kernel/ctrl_dev.c:96-204 | two orders of one batch are both accepted in full or both not, and give lists that are permutations of each other |
| Listing.RunListing | kernel/ctrl_dev.c:185-222 | over every run, whatever is refused, deleted or restarted, the list is the requests a client would remember from the return codes, as stored |
| Listing.ListAfterRun | kernel/ctrl_dev.c:393-441 | after any run a listing shows the first min(requested, actual) remembered requests in insertion order, equal to what was asked for but for the stored name |
| Listing.PublishedRequests | kernel/ctrl_dev.c:249-267 | after any run, entry i of the published array serves the i-th request of the client's record: stored name, probes, offset and size as requested, MTD_WRITEABLE alone in the mask iff read-only, MTD_POWERUP_LOCK alone added iff asked for; every later entry, one for each delete, is zero in all fields |
| Listing.BatchListing | kernel/ctrl_dev.c:185-193 | a batch accepted in full lists back whole and in order |
| Listing.ListUnderConcurrency | kernel/ctrl_dev.c:405-426 | the same over every interleaving, by the codes the callers carried away in lock order |
| Publication.RunTallies | kernel/ctrl_dev.c:195-222 | over every run `parts_count` is the adds since the last restart and the list is shorter by the deletes |
| Publication.PublishAfterRun | kernel/ctrl_dev.c:233-270 | what converting returns after any run, decided by adds and deletes alone: the array is the recipe iff nothing was deleted, every entry past the list is zeroed, and the BUG_ON is hit iff everything was |
| Publication.PublishLossless | kernel/ctrl_dev.c:254-267 | entry i has the name, probes, offset and size of list item i and exactly the flags its part asks for, and gives the item back |
| Publication.DeleteBreaksPublish | kernel/ctrl_dev.c:217-247 | concrete runs: add and delete reach the BUG_ON, two adds and a delete publish a zeroed entry |
| Publication.PublishWithDecrement | kernel/ctrl_dev.c:195-247 | if deletes decremented `parts_count`, every run would publish exactly the recipe and the BUG_ON would be unreachable |
| Publication.StoredNameMeaning | kernel/ctrl_dev.c:188-191 | the stored name is the C string cut to 127 bytes and then only NULs, and storing it again changes nothing |
| Publication.AddListRoundTrip | kernel/ctrl_dev.c:185-193 | adding and listing returns the request with its stored name; adding a listed part again stores the same part |
| RecipeDevice.CopyName | kernel/ctrl_dev.c:188-191 | the length scan, copy and forced NUL fill the buffer with the stored name |
| RecipeDevice.ControlDevice.VerifyParams | kernel/ctrl_dev.c:96-113 | the loop over the list decides as the recursive scan does |
| RecipeDevice.ControlDevice.AddRecipePart | kernel/ctrl_dev.c:161-204 | in place, the new state and the code are those of the value model |
| RecipeDevice.ControlDevice.DelRecipePart | kernel/ctrl_dev.c:206-231 | in place, the index-th node goes or -ENOENT is returned |
| RecipeDevice.ControlDevice.RestartRecipe | kernel/ctrl_dev.c:33-44 | draining the list empties the recipe and zeroes the counter |
| RecipeDevice.ControlDevice.OpenDevice | kernel/ctrl_dev.c:46-67 | one opener at a time, starting from an empty recipe |
| RecipeDevice.ControlDevice.ConvertRecipe | kernel/ctrl_dev.c:233-270 | the fill loop writes inside the allocation, because the counter never falls below the list; each list entry has its part's name, range and exactly its flags, the rest are zeroed |
| RecipeDevice.ControlDevice.ListRecipeParts | kernel/ctrl_dev.c:393-441 | copies the first min(requested, actual) parts in order and then that count; -EFAULT exactly when a slot or the count word cannot be written |
| RespawnInvariant.ChangeMeaning | kernel/ctrl_dev.c:33-231 | on allocated nodes a recipe call is the call of the value model in state and outcome; no node leaks and none is linked after it is freed |
| RespawnInvariant.StepInv | kernel/ctrl_dev.c:272-342 | every action of every thread keeps the invariant of locks, flag, counter, nodes, published arrays and table |
| RespawnSafety.TableExclusion | kernel/ctrl_dev.c:550-588 | in every reachable state at most one of direct add, direct delete, live-list walk and respawn is at the table; edits and respawns run with no reference held |
| RespawnSafety.FlagOwner | kernel/ctrl_dev.c:272-307 | the flag is up exactly while one thread, owner of the recipe lock, is between its two writes of it |
| RespawnSafety.FlagClearedOnExit | kernel/ctrl_dev.c:303-342 | every way out of a respawn leaves the flag clear; with no call in flight both locks are free |
| RespawnSafety.RespawnSafe | kernel/ctrl_dev.c:285-307 | from the unlocked zero read until the flag is cleared the counter stays 0 and no reference is taken, over every interleaving |
| RespawnSafety.References | kernel/proxy_mtd_dev.c:26-52 | after any run the counter is the gets that counted up minus the puts that counted down, and the number of references owned |
| RespawnSafety.OnlyStop | kernel/proxy_mtd_dev.c:31-32 | the BUG_ONs of the counter and of the overlap test are unreachable in every reachable state; a halted thread halted publishing an emptied recipe, holding the recipe lock |
| RespawnSafety.AliasLifetime | kernel/ctrl_dev.c:258-329 | while a published array exists every name in it belongs to an allocated node and the array describes the recipe |
| RespawnSafety.ReportedSuccess | kernel/ctrl_dev.c:285-307 | a respawn about to clear the flag with code 0 has put exactly the recipe, or nothing for a delete, into the table; one that never asked the core has -EBUSY |
| RespawnSafety.ConcurrentRecipe | kernel/ctrl_dev.c:161-231 | an interleaved run leaves the recipe, and gives its callers the codes, of the same calls made one after the other in lock order |
| RespawnSafety.ConversionEnds | kernel/ctrl_dev.c:233-252 | over every interleaving, a conversion is refused iff nothing was added since the last restart and halts iff something was and all of it was deleted |
| RespawnCalls.CallSteps | kernel/ctrl_dev.c:531-656 | over every interleaving a call that has begun is at a step of its own kind, for its own edit, recipe change or respawn, until it returns; only a create can also halt |
| RespawnCalls.GetGranted | kernel/proxy_mtd_dev.c:37-52 | over every interleaving, between taking and releasing the proxy lock a get returns 0 iff the flag is clear iff the counter and the caller's references each rise by one; it returns -EBUSY iff some thread is between its two writes of the flag |
| RespawnCalls.PutDrops | kernel/proxy_mtd_dev.c:26-35 | over every interleaving a put drops the counter by one under the proxy lock and takes one reference from its caller |
| RespawnCalls.EditAnswers | kernel/ctrl_dev.c:548-588 | over every interleaving a direct add or delete asks the core exactly when the flag is clear and nothing is referenced, returns its answer, and leaves the core's table on 0 and the old one on a failure; otherwise it is -EBUSY and asks nothing |
| RespawnCalls.ReadersLetIn | kernel/ctrl_dev.c:626-656 | over every interleaving a listing or a live-table walk runs iff the flag is clear, and then sees one table throughout; otherwise it is -EBUSY |
| RespawnCalls.RespawnReports | kernel/ctrl_dev.c:280-342 | over every interleaving a respawn returns 0 iff the core was asked to unregister and register and both succeeded, else the code of the call that failed, with nothing asked after it; with nothing asked -EBUSY, or for a create -EINVAL or -ENOMEM |
| RespawnCalls.FailedCore | kernel/ctrl_dev.c:296-307 | over every interleaving a failed unregister or register takes the respawn to its exit with that code, which is the one code it returns; until the flag is cleared the table is as before for an unregister and unregistered for a register; no run gets stuck before the return |
| RespawnCalls.RespawnTable | kernel/ctrl_dev.c:285-307 | over every interleaving, while the flag is up the table is the old one until an unregister has succeeded, then unregistered, and after a successful register the recipe, or nothing for a delete |
| RespawnEffect.RespawnAlways | kernel/ctrl_dev.c:280-342 | every run in which one respawn call moves alone and the kernel calls succeed ends with -EBUSY and the table unchanged if a reference is held, and otherwise with 0 and the table rebuilt from the recipe; -EINVAL for an untouched recipe, a halt for an emptied one |
| RespawnEffect.RespawnAlone | kernel/ctrl_dev.c:309-342 | from any reachable state with no call in flight there is such a run |
| RespawnProgress.BoundedWork | kernel/ctrl_dev.c:272-342 | calls in flight take at most a fixed number of further steps under any scheduler |
| RespawnProgress.StuckMeans | kernel/ctrl_dev.c:315-405 | if no step of any call in flight is enabled, a thread halted at the empty-publish BUG_ON or the list/respawn pair is deadlocked, and nothing else |
| RespawnProgress.CallsFinishUnpaired | kernel/ctrl_dev.c:491-661 | with any number of ioctls and users but no list beside a respawn, every maximal run ends with every call returned or with a thread halted at that BUG_ON |
| RespawnProgress.CallsFinish | kernel/ctrl_dev.c:491-661 | with one ioctl in flight and any number of proxy users, every maximal run ends with every call returned or halted at that BUG_ON |
| RespawnDeadlock.DeadlockIff | kernel/ctrl_dev.c:309-342 | a list and a respawn begun in any quiet reachable state can be scheduled into the deadlock iff the respawn is a delete or a create of a recipe with parts |
| RespawnDeadlock.DeadlockReachable | kernel/ctrl_dev.c:626-630 | two threads reach the lock-order deadlock from boot |
| RespawnDeadlock.DeadlockPermanent | kernel/ctrl_dev.c:405-406 | the deadlocked pair stays deadlocked whatever the others do |
| LiveTable.AddMeaning | kernel/ctrl_dev.c:346-364 | a given length must make whole blocks; the rest of the device is accepted exactly from an aligned offset below the end of a whole-block device |
| LiveTable.ResolveMeaning | kernel/ctrl_dev.c:366-391 | a relative index resolves to its listed entry exactly for 0 and past the end |
| LiveTable.SecondDoesNotResolve | kernel/ctrl_dev.c:381-387 | in a table of two, index 1 is listed and does not resolve |
| LiveTable.CountingResolves | kernel/ctrl_dev.c:378-388 | with the index advanced, every relative index resolves to the absolute index of its listed entry |
| LiveTable.DrainByZero | README.md:102-104 | n deletes at index 0 remove the first n partitions; once the table is empty the next returns -EINVAL |
| LiveTable.ProxyTable.AddPartition | kernel/ctrl_dev.c:531-561 | -EINVAL for a bad range even when busy, -EBUSY during a respawn or under a user, else the core's answer; the new partition is last, has the given offset and number, and the given length or everything up to the end of the device |
| LiveTable.ProxyTable.DelPartition | kernel/ctrl_dev.c:562-590 | -EBUSY when busy; else at index 0 of a nonempty table the core's answer, and the first partition goes iff that is 0; at any other index, or on an empty table, -EINVAL with the table unchanged, whatever the core would say |
| LiveTable.ProxyTable.AbsoluteIndex | kernel/ctrl_dev.c:366-391 | the walk, whose index never advances, returns what the recursive resolution does |
| Enumeration.SelectionMeaning | kernel/ctrl_dev_class.c:96-144 | the selection is the increasing sequence of exactly the present, matching master devices |
| Enumeration.WalkStep | kernel/ctrl_dev_class.c:25-29 | each device the walk finds next is the next of the selection, if it matches at all |
| Enumeration.FilterMeaning | kernel/ctrl_dev_class.c:118-140 | the walk's selection is the sequence of devices the filter's name asks for, for NAND exactly when no master is NOR or plain NAND |
| Enumeration.NandFilterFails | kernel/ctrl_dev_class.c:129-135 | the NAND filter takes a NOR device and leaves out a plain NAND one |
| Enumeration.ShiftStep | kernel/ctrl_dev_class.c:163-173 | taking or dropping one more reference moves exactly that device's count |
| DeviceClass.DevClass.CountPass | kernel/ctrl_dev_class.c:146-153 | the count pass counts the selection |
| DeviceClass.DevClass.AcquirePass | kernel/ctrl_dev_class.c:155-178 | the acquire pass writes inside an array of that count, in index order, with one reference on each device taken, and stops at the first refusal |
| DeviceClass.DevClass.PutAll | kernel/ctrl_dev_class.c:211-221 | with the table lock free it drops one reference for each recorded device; with the lock held it waits for itself |
| DeviceClass.DevClass.GetAllMatching | kernel/ctrl_dev_class.c:223-272 | how it ends for every selection, memory and refusal; on success the array is the selection with one reference each, and every other return leaves references and memory as they were |
| DeviceClass.DevClass.GetAllRepaired | kernel/ctrl_dev_class.c:223-272 | with the lock dropped before the puts and one free, acquisition always returns and every failure restores all counts and memory |
| DeviceClass.RefuseOnlyDevice | kernel/ctrl_dev_class.c:264-266 | a call on a table of one master that refuses ends in a double free |
| DeviceClass.RefuseSecondDevice | kernel/ctrl_dev_class.c:216-218 | a call on a table of two, the second refusing, ends in a self-deadlock with the first one's reference held |
| DeviceClass.FailFirstCreation | kernel/ctrl_dev_class.c:305-308 | a load whose first control device fails returns its code with only the region left behind |
| DeviceClass.Machine.AllocArray | kernel/ctrl_dev_class.c:180-209 | all items or nothing: a failed allocation frees every earlier one |
| DeviceClass.DevClass.AddDevices | kernel/ctrl_dev_class.c:65-91 | device i gets minor i and the i-th acquired MTD, up to the first failure |
| DeviceClass.DevClass.CreateDevices | kernel/ctrl_dev_class.c:281-309 | a failed creation removes the devices made and keeps the region |
| DeviceClass.DevClass.Init | kernel/ctrl_dev_class.c:311-352 | success exactly when every step succeeds, else the code of the first failing step; every failure that returns restores references, memory, devices and class, and leaves the region exactly when creating a device failed |
| DeviceClass.DevClass.Destroy | kernel/ctrl_dev_class.c:354-361 | drops one reference for each device and frees every allocation the load made |
| DeviceClass.DevClass.LoadUnload | kernel/ctrl_dev_class.c:311-361 | load followed at once by unload leaves every use count and every allocation of the load as it was |
| DeviceClass.DevClass.ResolveByMinor | kernel/ctrl_dev_class.c:47-56 | minor m of a loaded module is the device behind which the m-th selected MTD sits |

## Left out

- The Linux MTD core: how partitions are allocated, named, unregistered and
  announced. Its calls have abstract effects and free outcomes; what it does
  with zeroed array entries is not part of this model, and neither are its
  notifiers, which may call back into the proxy device.
- The core's own locks. `partitions_lock` and `mtd_table_mutex` are taken by calls
  made under the proxy lock; the deadlock results speak of the driver's two locks.
- DeviceClass.DevClass.Destroy: does not model the recipe nodes still linked when
  the module unloads; neither the unload nor a release of the device frees them.
- Integer width of the counters: `use_refcnt` and `parts_count` are unbounded,
  so 2^31 simultaneous references or 2^64 adds without a restart are not modelled.
- proxy_mtd_get_device, proxy_mtd_put_device and the respawn functions exist
  only as steps of the transition system, not as methods as well: their point
  is the interleaving.
- Memory order: each step of the transition system is atomic and sees the last
  write, including the unlocked read of the counter.
- Open's compare-and-swap is in the sequential model; in the concurrent one open
  appears as the restart it performs.
- GET_PARTITION_LIST's copy loop, the same shape as LIST_RECIPE_PARTS; GET_INFO;
  partial faults inside one copied item.
- The unwinding inside one control device's creation: a creation succeeds, or
  fails and leaves nothing.
- The error code of the count pass (-EIO): its callback cannot fail.
- NAND pass-throughs, read, write and OOB forwarding, character device and class
  registration, module parameters, the parser stub, printing, and the user-space
  tools.
