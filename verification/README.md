# Models of the key-value store, thread, socket and device code

This project models the C components of the repository that keep state, and proves what they promise:

- `HashTable.dfy`, `HashTableInvariants.dfy`, `HashTableKeys.dfy`, `HashTableRefinement.dfy`, `HashTableLength.dfy`,
  `HashTableMemory.dfy`, `HashMap.dfy`: the key-value server's open-addressing hash map. `HashTable` gives the effect of
  one call as a function on tables, with put and rehash mutually recursive as in the program; the class in `HashMap`
  updates its fields and slot array in place and computes exactly these functions; the other files prove the invariants
  of all runs, what becomes of the stored keys, the refinement of a plain map, when the length is the number of keys,
  where a key lands and when memory runs out.
- `ShiftRegister.dfy`, `Crc.dfy`: the CRC behind the hash. The first file is the algebra of linear feedback shift
  registers over any carrier, the second the table, the loop and the bit-serial reference.
- `PthreadOsal.dfy`, `PthreadProgress.dfy`: the pthread OS layer as a step relation, one shared access per step, over all
  interleavings, and what its operations get done.
- `Select.dfy`, `SocketAlloc.dfy`: the lwIP socket layer. vfscore and lwIP are environments that may fail at any call.
- `UdpEcho.dfy`: the raw UDP echo's rewrite of a frame, in place, and the checksums it claims to preserve.
- `NetDev.dfy`, `Netbuf.dfy`: the network device driver under lwIP, and its buffers with an embedded pbuf.
- `Proto.dfy`: the packed protocol table and its cursor.
- `Basics.dfy`: two shared types.

`dafny verify dfyconfig.toml` checks everything.

Calls into code outside the repository are parameters: the hash map's allocator (its answer to every request, and a
cap on the table size), the answers of vfscore, lwIP and the device, the clock (a step of its own) and the scheduler
(any thread may take the next step).

Where the code and its comments or purpose disagree, the model follows the code:

- `hashmap_hash` stops at the first hole while `hashmap_get` and `hashmap_remove` look past holes, so a put after a
  remove can duplicate a key and later bring an older value back (`StaleValueReturns`; the exact conditions are
  `RunUniqueIff` for the slots and `RunFaithfulIff` for the answers).
- `size`, which `hashmap_length` returns as the length, is not always the number of keys (`LengthDrifts`): since
  the table last grew it went up with every put, those that moved keys included, and down with every successful remove.
  It is never too small (`RunLengthBound`), and right after every call exactly in the runs that overwrite no key
  (`RunLengthIff`).
- `sock_net_file_get` keeps the reference it took on a descriptor that is not a socket (`Select.Vfs.FileGet`).
- The UDP echo declares the Ethernet type as one byte, ignores the IP header length and claims that no checksum
  changes. That is so from five header words on (`IpSumKept`, `UdpSumKept`). It is false of an accepted frame with a
  header length of four words (`ShortFrameSumChanges`); `IpSumKeptIff` gives the exact condition for the IP header sum
  of all frames. For fewer than five header words only the IP header sum is characterised.

## Model

| member | source | states |
|---|---|---|
| `HashTableRefinement.PutGetRunRefines` | experiments/tab_04_kvs_compare/server/linux_single/server.c:167-294 | every run of puts and gets from a new map in which no put runs out of memory answers every call as a plain map does: get returns the value of the last put of its key, and MAP_MISSING exactly when there was none |
| `HashTableRefinement.PutGetRunNeverWrong` | experiments/tab_04_kvs_compare/server/linux_single/server.c:167-294 | when puts may run out of memory, keys may be lost, but a get that succeeds still returns the value of the last put of its key that returned MAP_OK |
| `HashTableRefinement.RunUniqueIff` | experiments/tab_04_kvs_compare/server/linux_single/server.c:167-358 | for every run, removes and failed calls included: no table on the way holds a key twice if and only if no put stops at a hole in front of the slot that already holds its key |
| `HashTableRefinement.RunFaithfulIff` | experiments/tab_04_kvs_compare/server/linux_single/server.c:167-358 | for every run with enough memory, removes included: every call, and every continuation by gets and removes after any of them, is answered as by a plain map if and only if no put stops at a hole in front of its key |
| `HashTableRefinement.PutFaithfulIff` | experiments/tab_04_kvs_compare/server/linux_single/server.c:237-358 | the same at one put, on any table that represents a map |
| `HashTableRefinement.ShadowBreaks` | experiments/tab_04_kvs_compare/server/linux_single/server.c:181-358 | what such a put breaks: the next remove of the key succeeds and leaves the slots as they were before the put, and the get after it returns the older value |
| `HashTableRefinement.ShadowFreeRunRefines` | experiments/tab_04_kvs_compare/server/linux_single/server.c:167-358 | every run, removes included, in which no put does that and no call runs out of memory answers every call as a plain map does, and its last table represents that map |
| `HashTableRefinement.RunRefines` | experiments/tab_04_kvs_compare/server/linux_single/server.c:167-358 | a condition on the calls alone that is enough for it: after a successful remove, puts only insert absent keys |
| `HashTableRefinement.StaleValueReturns` | experiments/tab_04_kvs_compare/server/linux_single/server.c:181-189 | such runs exist: for any two keys with one home index, six calls from a new map bring an older value back where a plain map has none |
| `HashTableRefinement.PutUniqueIff` | experiments/tab_04_kvs_compare/server/linux_single/server.c:237-260 | the exact condition, on any table with unique keys: a successful put keeps the keys unique if and only if the probe does not stop at a hole in front of the slot that already holds the key, and then it is the map update |
| `HashTableRefinement.PutCorrect` | experiments/tab_04_kvs_compare/server/linux_single/server.c:237-260 | on a table without holes MAP_OK means the map gained exactly the new pair, MAP_OMEM at any nesting depth leaves a submap, the probe invariant is kept, and a right `size` stays right for a new key |
| `HashTableRefinement.RehashCorrect` | experiments/tab_04_kvs_compare/server/linux_single/server.c:197-232 | for every table with unique keys, holes or not: a refused first allocation changes nothing; otherwise the probe invariant holds again and `size` is the number of keys, MAP_OK means the same map and MAP_OMEM a submap, even when puts inside it rehash the half-filled table again |
| `HashTableRefinement.MoveAllCorrect` | experiments/tab_04_kvs_compare/server/linux_single/server.c:218-227 | the loop of rehash: after any number of old slots the new table holds exactly those, or a put ran out of memory and it holds a part of the old map |
| `HashTableRefinement.PutOutOfMemory` | experiments/tab_04_kvs_compare/server/linux_single/server.c:246-251 | from any table with unique keys, a put that returns MAP_OMEM leaves unique keys and a submap of the map before, and the very same slots and `size` when the first allocation is refused |
| `HashTableRefinement.PutThenGet` | experiments/tab_04_kvs_compare/server/linux_single/server.c:237-294 | in every table, even one with duplicate slots, a put that returns MAP_OK is what the next get of that key returns |
| `HashTableRefinement.GetCorrect` | experiments/tab_04_kvs_compare/server/linux_single/server.c:265-294 | on unique keys in their windows, get is the lookup in the represented map, although it ignores holes |
| `HashTableRefinement.RemoveCorrect` | experiments/tab_04_kvs_compare/server/linux_single/server.c:327-358 | on unique keys remove deletes exactly its key, returns MAP_MISSING exactly when it is absent, and leaves every other lookup as it was |
| `HashTableKeys.PutKeys` | experiments/tab_04_kvs_compare/server/linux_single/server.c:237-260 | of any table, duplicate slots or not: a put that returns MAP_OK leaves exactly the stored keys and its own, one that returns MAP_OMEM at any depth adds no key, and every key stays in its window |
| `HashTableKeys.RehashKeys` | experiments/tab_04_kvs_compare/server/linux_single/server.c:197-232 | of any table: a rehash that returns MAP_OK keeps exactly the stored keys, and none is new otherwise |
| `HashTableKeys.AtMostEightColliders` | experiments/tab_04_kvs_compare/server/linux_single/server.c:181-191 | at most eight of the stored keys share a full hash, in any table whose keys are in their windows |
| `HashTableKeys.RunColliders` | experiments/tab_04_kvs_compare/server/linux_single/server.c:52-358 | so in every table any run reaches, with duplicates, holes and failed calls: no call leaves nine distinct keys with one full hash |
| `HashTableKeys.NinthCollider` | experiments/tab_04_kvs_compare/server/linux_single/server.c:160-259 | once eight keys with one full hash are stored, putting a ninth returns MAP_OMEM, whatever the memory cap and whatever else the table holds |
| `HashTableInvariants.RunSound` | experiments/tab_04_kvs_compare/server/linux_single/server.c:52-358 | every table reached by any run, removes and failed allocations included: occupied slots <= `size` <= half the table, the table has 256 times a power of two slots, every key is within eight slots of its home, cyclically |
| `HashTableInvariants.PutSound` | experiments/tab_04_kvs_compare/server/linux_single/server.c:237-260 | put keeps that invariant whatever it returns; `size` grows by at most one, and not at all on MAP_OMEM |
| `HashTableInvariants.RehashSound` | experiments/tab_04_kvs_compare/server/linux_single/server.c:197-232 | rehash keeps it too; once its allocation is granted, `size` ends at most at the old occupancy and at a quarter of the table |
| `HashTableInvariants.RemoveSound` | experiments/tab_04_kvs_compare/server/linux_single/server.c:327-358 | remove keeps it and does not raise `size` |
| `HashTableInvariants.RehashNeverLoaded` | experiments/tab_04_kvs_compare/server/linux_single/server.c:212-227 | at every point of a rehash the new table is at most a quarter full, so none of its puts is refused by the load check and nested rehashes come only from full probe chains; the rehash is that point followed by the rest of the loop |
| `HashTableInvariants.MoveAllSplit` | experiments/tab_04_kvs_compare/server/linux_single/server.c:218-227 | the loop of rehash may be cut anywhere: it moves the old slots before that point and then, unless a put failed, those after it |
| `HashTableInvariants.PutBelowLoad` | experiments/tab_04_kvs_compare/server/linux_single/server.c:175-191 | a put below the load limit that meets no full chain succeeds without allocating |
| `HashTableInvariants.RehashDirect` | experiments/tab_04_kvs_compare/server/linux_single/server.c:197-232 | a granted rehash that meets no full chain makes one allocation, exactly doubles the table and succeeds |
| `HashTableInvariants.PutGrowth` | experiments/tab_04_kvs_compare/server/linux_single/server.c:237-260 | without a full chain a put doubles the table at most once, and only when `size` is half of it |
| `HashTableInvariants.RunGrowth` | experiments/tab_04_kvs_compare/server/linux_single/server.c:175-257 | in every run in which no probe chain overflows the table has at most max(256, 4 x number of puts) slots |
| `HashTableMemory.PutRequests` | experiments/tab_04_kvs_compare/server/linux_single/server.c:237-260 | when put runs out of memory, on any table: it returns MAP_OK only if every allocation it asked for was granted, and MAP_OMEM only if exactly the last one, for twice the slots it leaves, was refused, at whatever depth |
| `HashTableMemory.RehashRequests` | experiments/tab_04_kvs_compare/server/linux_single/server.c:197-232 | the same for rehash |
| `HashTableMemory.PutOmemIff` | experiments/tab_04_kvs_compare/server/linux_single/server.c:237-260 | without a full probe chain put returns MAP_OMEM if and only if the table is at half load and the one allocation it asks for is refused |
| `HashTableMemory.RunEnough` | experiments/tab_04_kvs_compare/server/linux_single/server.c:175-260 | a run in which no probe chain overflows and every allocation is granted runs out of memory nowhere, if the cap admits max(256, 4 x puts) slots |
| `HashTableMemory.PutLands` | experiments/tab_04_kvs_compare/server/linux_single/server.c:160-259 | below half load a key whose first i slots from hash mod size on, i < 8, are in use by others is stored in the next, if that is free or its own, and nothing else changes |
| `HashTableMemory.PutGrows` | experiments/tab_04_kvs_compare/server/linux_single/server.c:175-251 | at half load, or with all eight slots in use by others, twice the slots are asked for first, and a refusal leaves everything as it was |
| `HashTableInvariants.AtMostEightPerHome` | experiments/tab_04_kvs_compare/server/linux_single/server.c:181-191 | pigeonhole over the probe window: at most eight occupied slots share a home index |
| `HashTableInvariants.RunAtMostEight` | experiments/tab_04_kvs_compare/server/linux_single/server.c:52-358 | so in every reachable table |
| `HashTable.Rehash` | experiments/tab_04_kvs_compare/server/linux_single/server.c:197-232 | terminates with put under any memory cap, by the room left under the cap and then the old slots left; MAP_OK means the table at least doubled within the cap |
| `HashTable.ProbeFrom` | experiments/tab_04_kvs_compare/server/linux_single/server.c:181-191 | the probe passes only slots in use by other keys and stops at the first that is free or holds the key |
| `HashTable.FindFrom` | experiments/tab_04_kvs_compare/server/linux_single/server.c:277-288 | the lookup passes holes and stops at the first slot that holds the key |
| `HashMap.Map.constructor` | experiments/tab_04_kvs_compare/server/linux_single/server.c:52-67 | a new map has 256 free slots and length 0 |
| `HashMap.Map.Hash` | experiments/tab_04_kvs_compare/server/linux_single/server.c:167-192 | the loop with its cyclic index finds the slot of the probe function, or MAP_FULL exactly when the table is at its load limit or the chain is full |
| `HashMap.Map.Rehash` | experiments/tab_04_kvs_compare/server/linux_single/server.c:197-232 | updating the fields and the slot array in place gives the table and status of the rehash function |
| `HashMap.Map.Put` | experiments/tab_04_kvs_compare/server/linux_single/server.c:237-260 | so does put, whose retry loop terminates |
| `HashMap.Map.Get` | experiments/tab_04_kvs_compare/server/linux_single/server.c:265-294 | status and value are those of the lookup function |
| `HashMap.Map.Remove` | experiments/tab_04_kvs_compare/server/linux_single/server.c:327-358 | the slot array is changed in place to the table of the remove function |
| `HashMap.Map.Length` | experiments/tab_04_kvs_compare/server/linux_single/server.c:362-366 | the length is `size`; in every table with the invariant of all runs it is at least the number of slots in use, which is at least the number of distinct keys |
| `HashTableLength.RunLengthIff` | experiments/tab_04_kvs_compare/server/linux_single/server.c:237-366 | over any run, removes and failed calls included, the length is the number of keys after every call if and only if every put that succeeds is of a key that a get before it would miss |
| `HashTableLength.LengthDrifts` | experiments/tab_04_kvs_compare/server/linux_single/server.c:237-366 | it fails on the shortest run that overwrites: one key put twice has length two |
| `HashTableLength.RunLengthBound` | experiments/tab_04_kvs_compare/server/linux_single/server.c:237-366 | over every run the length is at least the number of distinct keys |
| `HashTableLength.PutRightIff` | experiments/tab_04_kvs_compare/server/linux_single/server.c:237-260 | from unique keys, the length is right after a successful put if and only if the key is new, and the length was right before or the table grew; after a failed put if and only if it was right before or the first allocation was granted |
| `HashTableLength.RemoveRightIff` | experiments/tab_04_kvs_compare/server/linux_single/server.c:339-355 | on unique keys a remove keeps a right length right and a wrong one wrong |
| `HashTableLength.OccupiedKeys` | experiments/tab_04_kvs_compare/server/linux_single/server.c:237-358 | slots in use are at least the distinct keys, and exactly as many if and only if no key is stored twice |
| `HashTableLength.RightUnique` | experiments/tab_04_kvs_compare/server/linux_single/server.c:237-366 | in a table with the invariant of all runs a right length means that no key is stored twice |
| `Crc.Crc32` | experiments/tab_04_kvs_compare/server/linux_single/server.c:125-138 | for every byte string the table-driven loop equals the bit-serial register for the reflected polynomial of section 8 of RFC 1952, started at 0 and not complemented |
| `Crc.TableEntry` | experiments/tab_04_kvs_compare/server/linux_single/server.c:69-122 | each of the 256 table entries is its index shifted eight times through the register, on 32-bit values |
| `Crc.TableWord` | experiments/tab_04_kvs_compare/server/linux_single/server.c:69-122 | the same on words of single bits, for the register of the specification |
| `Crc.TableStep` | experiments/tab_04_kvs_compare/server/linux_single/server.c:132-135 | one table lookup equals feeding the eight bits of a byte |
| `Crc.SerialFits` | experiments/tab_04_kvs_compare/server/linux_single/server.c:125-138 | the CRC never reaches 2^32, although `unsigned long` has 64 bits |
| `Crc.SerialLinear` | experiments/tab_04_kvs_compare/server/linux_single/server.c:125-138 | the CRC is linear: equally long messages xored byte by byte xor their CRCs |
| `Crc.BurstsDetected` | experiments/tab_04_kvs_compare/server/linux_single/server.c:125-138 | equally long keys that differ at most within 32 consecutive bits, at any bit offset, have the same CRC if and only if they are equal |
| `PthreadOsal.SemaphoresConserved` | experiments/tab_04_kvs_compare/aux/libs/pthread/pte_osal.c:386-451 | over every interleaving a semaphore count is its initial value plus the units all posts asked for, except those still to come, minus the pends that returned PTE_OS_OK and those that took a unit and are about to |
| `PthreadOsal.ThreadConserved` | experiments/tab_04_kvs_compare/aux/libs/pthread/pte_osal.c:386-451 | each thread took exactly the units its pends returned PTE_OS_OK for, plus the one it is leaving with, so none on PTE_OS_TIMEOUT or PTE_OS_INTERRUPTED; it upped exactly max(count, 0) times for each post, except what is still to come |
| `PthreadOsal.EntryOnce` | experiments/tab_04_kvs_compare/aux/libs/pthread/pte_osal.c:119-177 | over every interleaving an entry point runs at most once, and only after a start of its thread |
| `PthreadOsal.JoinAfterExit` | experiments/tab_04_kvs_compare/aux/libs/pthread/pte_osal.c:199-224 | waiting for a thread returns PTE_OS_OK only after that thread left the scheduler |
| `PthreadOsal.CheckCancelIff` | experiments/tab_04_kvs_compare/aux/libs/pthread/pte_osal.c:226-243 | in every reachable state the cancellation check is positive if and only if the thread was cancelled before |
| `PthreadOsal.NoYieldAfterCancel` | experiments/tab_04_kvs_compare/aux/libs/pthread/pte_osal.c:217-447 | after its cancellation a thread never passes the check of a wait loop into another yield |
| `PthreadOsal.ReturnAfterCall` | experiments/tab_04_kvs_compare/aux/libs/pthread/pte_osal.c:399-451 | over every interleaving each return of a pend belongs to a call before it, with no other by that thread in between; a cancellable pend returns PTE_OS_TIMEOUT only if it has a limit and more than that much time passed since the call, a plain one only if it has a limit |
| `PthreadOsal.InterruptedOnlyCancelled` | experiments/tab_04_kvs_compare/aux/libs/pthread/pte_osal.c:207-451 | only a thread that was cancelled before gets PTE_OS_INTERRUPTED, from waiting for a thread or from a cancellable pend |
| `PthreadOsal.NoLimitNoTimeout` | experiments/tab_04_kvs_compare/aux/libs/pthread/pte_osal.c:419-451 | a cancellable pend without a time limit, or with limit 0, never returns PTE_OS_TIMEOUT |
| `PthreadProgress.PendTurn` | experiments/tab_04_kvs_compare/aux/libs/pthread/pte_osal.c:429-448 | one turn of the cancellable pend, left alone: with a unit there it takes it and returns PTE_OS_OK; else with the limit passed it returns PTE_OS_TIMEOUT; else cancelled it returns PTE_OS_INTERRUPTED; else it yields and tries again, and nothing else changes |
| `PthreadProgress.DownTurn` | experiments/tab_04_kvs_compare/aux/libs/pthread/pte_osal.c:399-417 | the plain pend takes a unit if there is one, and otherwise waits, or times out if and only if it has a limit |
| `PthreadProgress.PostTurn` | experiments/tab_04_kvs_compare/aux/libs/pthread/pte_osal.c:386-397 | a post of n units ups the semaphore n times and returns |
| `PthreadProgress.JoinTurn` | experiments/tab_04_kvs_compare/aux/libs/pthread/pte_osal.c:207-224 | one turn of waiting for a thread's end: done and gone, PTE_OS_OK; else not done and cancelled, PTE_OS_INTERRUPTED; else it yields and looks again |
| `PthreadProgress.ExitThenJoin` | experiments/tab_04_kvs_compare/aux/libs/pthread/pte_osal.c:199-224 | a thread that exits can be waited for by any other |
| `PthreadProgress.StartedRuns` | experiments/tab_04_kvs_compare/aux/libs/pthread/pte_osal.c:119-177 | a created thread runs its entry point once it was started, and cannot before |
| `PthreadProgress.ExpiredReturns` | experiments/tab_04_kvs_compare/aux/libs/pthread/pte_osal.c:429-448 | however other threads are scheduled, a thread whose time limit has passed is out of its pend after at most five steps of its own |
| `PthreadProgress.CancelledReturns` | experiments/tab_04_kvs_compare/aux/libs/pthread/pte_osal.c:212-448 | so is a cancelled thread, out of a pend or of waiting for a thread |
| `PthreadOsal.RunInvariant` | experiments/tab_04_kvs_compare/aux/libs/pthread/pte_osal.c:119-451 | the seven invariants behind these results are kept by every step of every run |
| `Select.Select` | experiments/tab_04_kvs_compare/aux/libs/lwip/sockets.c:512-645 | descriptor by descriptor: a socket is in a set given to lwIP if and only if a member of the original set below nfds has it, and the bound is one above the greatest of them (1 if there is none); if lwIP answers without error a set keeps a member if and only if it is not below nfds or its socket is ready; the first member of any set that fails its lookup decides the error, and then all sets are untouched; references are restored except for one on a descriptor that is not a socket |
| `Select.SelectBelow` | experiments/tab_04_kvs_compare/aux/libs/lwip/sockets.c:529-645 | the same over the descriptors below a bound, as image sets and what is kept |
| `Select.Translate` | experiments/tab_04_kvs_compare/aux/libs/lwip/sockets.c:529-602 | first pass: image sets and greatest number, or the first bad descriptor |
| `Select.TranslateBack` | experiments/tab_04_kvs_compare/aux/libs/lwip/sockets.c:614-641 | second pass: exactly the members that are not ready are cleared, in place |
| `Select.Vfs.FileGet` | experiments/tab_04_kvs_compare/aux/libs/lwip/sockets.c:102-123 | which lookups fail and how, and that also a descriptor that is not a socket gains a reference |
| `Select.KeptImage` | experiments/tab_04_kvs_compare/aux/libs/lwip/sockets.c:604-641 | there and back: the sockets behind the returned set are the intersection of those asked for and those ready |
| `Select.KeptAll` | experiments/tab_04_kvs_compare/aux/libs/lwip/sockets.c:604-641 | a returned set has no new member, and is the given one if and only if everything asked for is ready |
| `SocketAlloc.Sockets.FdAlloc` | experiments/tab_04_kvs_compare/aux/libs/lwip/sockets.c:125-228 | whichever step fails, every resource acquired is released once, since a release needs it to be live, and the error is the one of that step; on success there is exactly one of each resource more and the vnode is held once; inode numbers increase |
| `SocketAlloc.Sockets.Acquire` | experiments/tab_04_kvs_compare/aux/libs/lwip/sockets.c:134-212 | what is held at each of the labels a failing step jumps to |
| `SocketAlloc.Sockets.Vget` | experiments/tab_04_kvs_compare/aux/libs/lwip/sockets.c:159-160 | the inode is not in the cache, as the program asserts, and its number is used up even without memory for a vnode |
| `SocketAlloc.Sockets.Drele` | experiments/tab_04_kvs_compare/aux/libs/lwip/sockets.c:215-216 | releasing the dentry drops its reference on the vnode, and the last reference frees it |
| `SocketAlloc.Sockets.Unwind` | experiments/tab_04_kvs_compare/aux/libs/lwip/sockets.c:214-228 | the labels fall through and release one live resource each |
| `SocketAlloc.HeldReleased` | experiments/tab_04_kvs_compare/aux/libs/lwip/sockets.c:214-228 | at every label, releasing what the labels from there on release gives back the state before the call |
| `SocketAlloc.Sockets.Socket` | experiments/tab_04_kvs_compare/aux/libs/lwip/sockets.c:328-363 | -1 leaves all resources, the new lwIP socket included, as before and sets errno; otherwise one descriptor more |
| `SocketAlloc.Sockets.Accept` | experiments/tab_04_kvs_compare/aux/libs/lwip/sockets.c:365-409 | the same for accept, with the listening file held meanwhile and its count restored on every path |
| `SocketAlloc.Sockets.Close` | experiments/tab_04_kvs_compare/aux/libs/lwip/sockets.c:230-264 | in every valid state both assertions of close hold, closing removes exactly the one descriptor with all its parts, and the error of lwIP is passed on |
| `SocketAlloc.Sockets.CloseParts` | experiments/tab_04_kvs_compare/aux/libs/lwip/sockets.c:230-256 | the closing steps one by one, from the vnode, each on a live resource |
| `SocketAlloc.OpenedLinked` | experiments/tab_04_kvs_compare/aux/libs/lwip/sockets.c:180-212 | opening keeps every resource owned by exactly one descriptor |
| `SocketAlloc.OpenedLeadsTo` | experiments/tab_04_kvs_compare/aux/libs/lwip/sockets.c:180-212 | the new descriptor leads to its lwIP socket, and all others lead where they did |
| `SocketAlloc.OpenedCounts` | experiments/tab_04_kvs_compare/aux/libs/lwip/sockets.c:134-212 | exactly one of each part more |
| `SocketAlloc.ClosedLinked` | experiments/tab_04_kvs_compare/aux/libs/lwip/sockets.c:230-264 | so does closing: nothing is orphaned |
| `SocketAlloc.ClosedLeadsTo` | experiments/tab_04_kvs_compare/aux/libs/lwip/sockets.c:230-264 | the closed descriptor and its lwIP socket are gone, and all others lead where they did |
| `SocketAlloc.CloseUndoesOpen` | experiments/tab_04_kvs_compare/aux/libs/lwip/sockets.c:125-264 | closing what was just opened restores every resource |
| `UdpEcho.Output` | experiments/fig_19_compare-dpdk/server/unikraft/uk_test_suite/perf_netdev/main_nolwip.c:112-156 | exactly the accepted frames are rewritten and sent; the in-place copies and exclusive-ors leave the frame with both addresses and both ports exchanged and every other byte as it was |
| `UdpEcho.TurnedAroundFields` | experiments/fig_19_compare-dpdk/server/unikraft/uk_test_suite/perf_netdev/main_nolwip.c:126-140 | the rewritten frame field by field: MAC addresses, IP addresses and ports exchanged by offset, every other byte as it was |
| `UdpEcho.XorSwap` | experiments/fig_19_compare-dpdk/server/unikraft/uk_test_suite/perf_netdev/main_nolwip.c:132-140 | the three exclusive-ors exchange two fields and touch nothing else |
| `UdpEcho.SwapHosts` | experiments/fig_19_compare-dpdk/server/unikraft/uk_test_suite/perf_netdev/main_nolwip.c:126-129 | the three copies exchange the MAC addresses |
| `UdpEcho.TurnedAroundTwice` | experiments/fig_19_compare-dpdk/server/unikraft/uk_test_suite/perf_netdev/main_nolwip.c:126-140 | a rewritten frame is accepted again and rewriting it restores the original |
| `UdpEcho.IpSumKept` | experiments/fig_19_compare-dpdk/server/unikraft/uk_test_suite/perf_netdev/main_nolwip.c:131-143 | for every frame with a well-formed header of at least five words, options included, the one's-complement sum of the IP header is unchanged |
| `UdpEcho.UdpSumKept` | experiments/fig_19_compare-dpdk/server/unikraft/uk_test_suite/perf_netdev/main_nolwip.c:131-143 | so is the sum over the pseudo header of RFC 768 and the datagram, also when the real UDP header is not where the program swaps ports |
| `UdpEcho.IpSumKeptIff` | experiments/fig_19_compare-dpdk/server/unikraft/uk_test_suite/perf_netdev/main_nolwip.c:131-143 | for all frames, since the program ignores the header length: the header sum is kept if and only if that length is not four words, or the two addresses have equal sums modulo 0xffff |
| `UdpEcho.ShortFrameSumChanges` | experiments/fig_19_compare-dpdk/server/unikraft/uk_test_suite/perf_netdev/main_nolwip.c:112-143 | a frame the program accepts and whose header sum it changes |
| `UdpEcho.OnesSumFolds` | experiments/fig_19_compare-dpdk/server/unikraft/uk_test_suite/perf_netdev/main_nolwip.c:142-143 | the sum of section 2 of RFC 1071 depends only on the plain sum of the words, so carries may be brought back at the end |
| `NetDev.Output` | experiments/tab_04_kvs_compare/aux/libs/lwip/uknetdev.c:101-188 | for every pbuf chain the device is given exactly the concatenated bytes without the pad, written within the tailroom; the chain is restored; the netbuf is handed over or freed on every path, and neither a second time, since both are only possible while the driver has it |
| `NetDev.Transmit` | experiments/tab_04_kvs_compare/aux/libs/lwip/uknetdev.c:155-157 | the netbuf is offered again while the device is not ready, stays the driver's meanwhile and on an error, and is the device's exactly on success |
| `NetDev.CopyUnpadded` | experiments/tab_04_kvs_compare/aux/libs/lwip/uknetdev.c:136-152 | dropping the pad, copying and reclaiming it leaves the chain as it was |
| `NetDev.CopyChain` | experiments/tab_04_kvs_compare/aux/libs/lwip/uknetdev.c:144-148 | the segments land one after another from the write position on and no other byte of the buffer changes |
| `NetDev.FlatIs` | experiments/tab_04_kvs_compare/aux/libs/lwip/uknetdev.c:144-148 | byte j of segment k is j bytes behind all segments before it in the packet, and there are no other bytes |
| `NetDev.Stack.Input` | experiments/tab_04_kvs_compare/aux/libs/lwip/uknetdev.c:190-276 | the receive loop hands up and gives back the packets of the poll function, in order, and takes the interface down exactly on a device error |
| `NetDev.PollDispatches` | experiments/tab_04_kvs_compare/aux/libs/lwip/uknetdev.c:205-275 | packet by packet: of the packets up to the first stop those whose last answer from lwIP is ERR_OK go up, in order, with two more bytes in front, exactly the others are given back, in order, and the poll fails if and only if it runs into a device error |
| `NetDev.ReceivedOnce` | experiments/tab_04_kvs_compare/aux/libs/lwip/uknetdev.c:203-275 | every received netbuf goes up or is given back, exactly as often as it came in |
| `Netbuf.Memory.AllocNetbuf` | experiments/tab_04_kvs_compare/aux/libs/lwip/netbuf.c:52-104 | a failed allocation or preparation leaves memory as it was; otherwise the netbuf spans the buffer behind the headroom, its pbuf is custom, referenced once and starts where the netbuf's data starts, both lead to each other, and no other netbuf is disturbed |
| `Netbuf.Memory.NetbufToPbuf` | experiments/tab_04_kvs_compare/aux/libs/lwip/netbuf.h:69-86 | the embedded pbuf leads back to its netbuf |
| `Netbuf.Memory.PbufToNetbuf` | experiments/tab_04_kvs_compare/aux/libs/lwip/netbuf.h:91-104 | the netbuf of an embedded pbuf leads back to that pbuf |
| `Netbuf.Memory.NetbufFree` | experiments/tab_04_kvs_compare/aux/libs/lwip/netbuf.c:44-50 | giving a packet back through its pbuf frees exactly the allocation around it |
| `Proto.DecodeEncode` | experiments/tab_04_kvs_compare/aux/libs/lwip/proto.c:30-92 | decoding undoes encoding for every list of records whose names have no NUL |
| `Proto.DecodeLaid` | experiments/tab_04_kvs_compare/aux/libs/lwip/proto.c:80-92 | from every record boundary on, a well-formed table reads as the rest of its records |
| `Proto.ProtosLaid` | experiments/tab_04_kvs_compare/aux/libs/lwip/proto.c:31-68 | the bytes of the program's own table, with the NUL the compiler adds, are well formed |
| `Proto.ProtosDecode` | experiments/tab_04_kvs_compare/aux/libs/lwip/proto.c:31-92 | and read as its 36 records |
| `Proto.Boundary` | experiments/tab_04_kvs_compare/aux/libs/lwip/proto.c:85-86 | the cursor is at or past the end exactly when all records were passed |
| `Proto.Protocols.EndProtoEnt` | experiments/tab_04_kvs_compare/aux/libs/lwip/proto.c:70-78 | the cursor goes back to the first record |
| `Proto.Protocols.GetProtoEnt` | experiments/tab_04_kvs_compare/aux/libs/lwip/proto.c:80-92 | the records come in order, then NULL for ever; the cursor is always on a record boundary or exactly at the end |
| `Proto.Protocols.GetProtoByName` | experiments/tab_04_kvs_compare/aux/libs/lwip/proto.c:94-102 | terminates with the first record of that name, or NULL if and only if there is none, whatever was iterated before; iteration goes on behind it |
| `Proto.Protocols.GetProtoByNumber` | experiments/tab_04_kvs_compare/aux/libs/lwip/proto.c:104-112 | the same by number |

## Left out

- HashTable.Put: `int` is unbounded; `2 * table_size` does not overflow while the allocator refuses more than 2^30 slots.
- HashMap.Map.constructor: the failing allocations of `hashmap_new`, after which the program has no map.
- HashMap.Map.HashInt: the Jenkins and Knuth mixing steps between the CRC and the reduction; the full hash is any function
  of the key's characters.
- HashMap.Map.Put: keys are immutable strings, so a caller that changes a stored key's characters is not covered, and
  neither is the memory of the old slot array, which is not freed when a rehash fails.
- HashMap.Map.Length: the call on a NULL map.
- `hashmap_iterate` and `hashmap_free`: a callback scan and deallocation, with only easy claims.
- The server's socket loops and key formatting, and the second copy of the hash map in `udpreceiver1.c`.
- PthreadOsal.EntryOnce: deletion of threads and the failing allocations of thread creation, mutexes, thread-local
  storage, priorities and NULL handles are not modelled; the final `free` of a thread is not part of any claim.
- PthreadOsal.SemaphoresConserved: deletion of semaphores.
- PthreadOsal.ReturnAfterCall: when the kernel ends a plain pend with a time limit is up to it.
- Select.Select: assumes three distinct set objects and a descriptor table that does not change during the call; the
  build with generic descriptors is not modelled. The sleep for `nfds == 0` is only a return of 0.
- SocketAlloc.Sockets.Accept: only socket descriptors are in the model's table, so the reference kept on another kind of
  file is left to `Select.Vfs.FileGet`.
- SocketAlloc.Sockets.FdAlloc: the inode counter does not wrap at 64 bits.
- `poll` and the wrappers of sockets.c that look up, forward and release.
- UdpEcho.UdpSumKept: header lengths below five words, for which RFC 791 defines no datagram start.
- UdpEcho.Output: frames shorter than the 38 bytes the program touches without asking, and the loop that offers the frame
  to the device again while it is not ready.
- NetDev.Output: a first segment shorter than the two pad bytes, which lwIP does not produce; the build without pad bytes.
- NetDev.Stack.Input: received packets with less than two bytes of headroom, which the receive buffers always have.
- Netbuf.Memory.AllocNetbuf: the order of the parts inside an allocation is that of uk_netbuf_prepare_buf, which is not
  part of this repository; sizes are fixed and alignment is ignored. Type and destructor fields are left out.
- Setting up the device, its queues and receive buffers.
- Other newlib and mtcp files, including the memory mapping stub, whose mapping path falls through into its error path.
- Plotting, parsing and measurement scripts.
