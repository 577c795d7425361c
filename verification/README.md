# nginx core, modelled and proved in Dafny

This project models the self-contained algorithms of the core of nginx 1.4.2 and proves what they promise. Every part takes
the form of the code: objects with fields and loops where nginx updates memory in place, functions where it computes.

`dafny verify dfyconfig.toml` checks everything. No proof needs more than 2,000,000 units of the solver's resources:

    dafny verify --resource-limit 2000000 --verification-time-limit 0 dfyconfig.toml

| part | files |
|---|---|
| shared-memory slab allocator (`ngx_slab.c`) | `SlabWord`, `SlabState`, `SlabRing`, `SlabCode`, `SlabScan`, `SlabAddr`, `SlabPool` |
| red-black tree (`ngx_rbtree.c`), with the tree of the file cache on top | `RbShape`, `RbMem`, `RbRotate`, `RbOrder`, `RbDelete`, `RbTree`, `FileTree` |
| event timers (`ngx_event_timer.c`, `.h`) | `TimerQueue` |
| cache of open files (`ngx_open_file_cache.c`) | `FileCache` |
| cross-process mutex (`ngx_shmtx.c`) | `Shmtx`, `ShmtxCalls` |
| hash with exact names (`ngx_hash.c`) | `HashLayout`, `HashSize`, `ExactHash`, `HashStart` |
| hash with wildcard names (`ngx_hash.c`) | `WildTable`, `WildScatter`, `WildLabels`, `WildHash`, `WildFind`, `WildKeys`, `WildGiven`, `WildNames`, `WildCombined` |
| configuration tokenizer (`ngx_conf_read_token`) | `ConfToken`, `ConfPrint`, `ConfLayout` |
| radix tree (`ngx_radix_tree.c`) | `Radix`, `RadixMask` |
| output chain (`ngx_output_chain.c`, `ngx_buf.c`) | `OutBuf`, `OutState`, `OutChain` |
| calendar (`ngx_gmtime`), CRC-32, base64, percent-encoding | `GmTime`, `CrcTables`, `Crc32`, `Base64`, `Base64Letters`, `UriEscape`, `UriTables`, `UriRoundTrip` |

Constants are those of the configured build: 4096-byte pages, 64-bit words, 64-byte cache lines, `openat` available, no vnode
events, no file AIO. Sums that the code keeps in a `u_short`, timer keys that wrap around, the unsigned division in
`ngx_slab_init` and the `int` fields of a date are written out; other integers are unbounded. What the system answers (`stat`,
`open`, `malloc`, the clock, the filter behind the output chain, what handlers do) is a parameter, so every result holds
whatever it answers.

Large invariants are sealed: a predicate body stands behind `forall k :: Open(k) ==> ...`, sometimes with the state it is about
as a further argument, and a proof opens it by naming `Open(0)`. This has no meaning beyond keeping proofs small.

## What the proofs found

Properties one would expect of the code that fail, each with an input, and the exact condition under which they hold:

- A descriptor leaks in the file cache. An entry is looked at again, `stat` sees another inode under the name, and `open` gets
  the old inode back: the new descriptor overwrites the old one, which stays open with no owner (`FileCache.FlipLeaks`).
  `FileCache.FileCache.OpenCached` says when: if and only if such a flip happens to an entry that is no longer current.
- A wakeup of the mutex is lost when a process dies at certain points, or when `sem_post` fails. `Shmtx.FatalPoints` says
  which points: just woken and trying for the lock again, or between releasing the lock and the end of the post. A death
  while spinning, enrolling, in the last test or in `trylock` never strands anybody.
- Freeing the head of a free run of pages raises no alert; every other mistaken free does (`SlabPool.SlabPool.FreeLocked`).
- `ngx_slab_init` can lay a page past the end of a pool, because a negative difference is divided as an unsigned number
  (`SlabPool.PagePastEnd`). `SlabPool.PastEndExactly` says for which addresses: one page's worth of memory but not two, with
  the last page boundary in it before the end of the descriptors. A pool at the beginning of a page never has that
  (`SlabPool.MappedInside`), and every pool of the tree is mapped so, with two pages at least: the defect is out of reach.
- `ngx_hash_init` accepts a table with an overfull bucket when a `u_short` sum wraps (`HashSize.WrapsPast`).
  `HashSize.TestedExactly`: for buckets of b bytes and elements of up to e bytes, the test is right for all lists of names if
  and only if b, rounded down to 8, plus e is less than 65536. The room of a bucket is a `u_short` as well, rounded up to
  cache lines, and 65464 bytes are the most that leave room for the end mark (`HashLayout.RoomEnough`); `HashSize.LaidExactly`
  says for which b and e every accepted table is laid out whole.
- `ngx_hash_init` with no names and a bucket size from 8 to 23 divides by zero (`ExactHash.HashTable.Init`).
- `ngx_dns_strcmp` takes the dot for the least character, so a name with a character up to the space in a label can fall
  between the names of a group. The group then gets two entries, and only the first is found: with "a.*", "a?b.*" and "a.c.*",
  where ? is such a character, the lookup of "a.c.x" gives the value of "a.*" (`WildNames.Scatter`).
  `WildNames.CharacterExactly`: with a character some accepted set of keys breaks some lookup if and only if the character is
  at or below the space. For one list of keys, `WildNames.HeadsExactly` and `TailsExactly`: all lookups are right for all
  values if and only if keys that begin alike stand together.
- `ngx_hash_add_key` notes the name of a ".x" key before it finds the key busy. After "*.a" and ".a", which is refused for it,
  "a" is refused too, although no accepted key is in its way (`WildGiven.RefusedClaims`). `WildGiven.GiveAll` says for all keys,
  from the keys given before, which are refused; that is the only refusal without an accepted key in the way.
- `ngx_hash_init` begins with the least size that could have room for the names, so it leaves no good size out
  (`HashStart.NothingMissed`), except that with a limit above 10000 and more than one name in a hundred places it tries the
  last 1000 sizes only (`HashStart.HurriedStart`).
- The radix tree reads a mask up to its first zero bit. `RadixMask.MaskExactly`: a key and a mask mean the addresses that agree
  with the key under the mask if and only if the mask has no zero bit before a one.
- `NGX_ESCAPE_ARGS` escapes the semicolon, which its comment does not list (`UriTables.EscapesExactly`).
- A text with a percent sign does not survive `NGX_ESCAPE_REFRESH`: the bitmap leaves the percent sign out, although its
  comment lists it. And `NGX_UNESCAPE_URI` and `NGX_UNESCAPE_REDIRECT` stop at a question mark. For every table and text and
  each of the three types that callers pass, `UriRoundTrip.RoundTrip` says exactly when unescaping undoes escaping.
- `ngx_gmtime` gives the date of a time if and only if the time is not negative and lies before year 2147483648, where the year
  is cut to an `int` (`GmTime.GmTime`).
- A copy buffer that is used again keeps the marks (flush, last buffer, last in chain) of its former contents when only part of
  a source is copied to it. `OutBuf.StaleMarks`: the marks are those that belong to the bytes if and only if the end of the
  source was copied or the copy buffer had no marks.
- `ngx_radix32tree_delete` follows a null parent for prefix length 0 on a root without children, and answers Ok for a leaf that
  has no value, as an insertion that ran out of memory leaves them (`Radix.RadixTree.Delete`).
- The tokenizer refuses a comment as a parameter that is too long, if it does not fit the buffer (`ConfPrint.LongComment`);
  `ConfPrint.OnlyTheLimit` says exactly when a text is refused.
- An entry of the file cache that holds an error keeps whatever `ngx_alloc` left in `uniq`, `is_dir` and `close`; the model
  takes that as a parameter, and no result depends on it.

## Model

| member | source | states |
|---|---|---|
| `SlabPool.SlabPool.constructor` | nginx_collect_log/src/core/ngx_slab.c:72-134 | `ngx_slab_init` leaves a sound pool, nothing live and all pages in one free run. The pages are all that fit: they start at the first page boundary behind the descriptors of the slots and of as many pages as the memory has the size for, and one more would go past the end or be more than that. For every memory that has a page inside. |
| `SlabPool.Layout` | nginx_collect_log/src/core/ngx_slab.c:93-130 | The place and number of the pages, with the unsigned division: they end inside the memory if and only if they start inside, and then they are all that fit. |
| `SlabPool.FilledOnce` | nginx_collect_log/src/core/ngx_slab.c:109-130 | There is one place and one number of pages only that fill the memory so. |
| `SlabPool.AllButOne` | nginx_collect_log/src/core/ngx_slab.c:109-130 | A mapping of 2 to 150 pages gives all of them but the first to the pool. |
| `SlabPool.HasPageExactly` | nginx_collect_log/src/core/ngx_slab.c:109-130 | Memory large enough, by address, for the descriptors and a page is exactly memory that gets a page and none past the end. |
| `SlabPool.CountPositive` | nginx_collect_log/src/core/ngx_slab.c:109-130 | Three pages' worth of memory always gives a page that lies inside. |
| `SlabPool.PagePastEnd` | nginx_collect_log/src/core/ngx_slab.c:122-130 | An aligned address and an end for which the one page starts past the end. |
| `SlabPool.PastEndExactly` | nginx_collect_log/src/core/ngx_slab.c:109-130 | A page lies past the end if and only if there is one page's worth of memory but not two and the last page boundary in it comes before the end of the descriptors. |
| `SlabPool.MappedInside` | nginx_collect_log/src/core/ngx_cycle.c:926-962 | Never for a pool at the beginning of a page, where the mapped pools are. |
| `SlabPool.MappedCount` | nginx_collect_log/src/core/ngx_cycle.c:926-962 | A mapping has a page for the pool if and only if it has two pages. |
| `SlabPool.SlabPool.AllocLocked` | nginx_collect_log/src/core/ngx_slab.c:152-395 | Keeps the pool sound. A result is exactly one new live chunk, large enough, of the slot's size and aligned to it when cut from a slab page, page-aligned and less than a page too large otherwise. 0 only when no page of the slot has a free chunk and no run is long enough, and then nothing changes. |
| `SlabPool.SlabPool.FreeLocked` | nginx_collect_log/src/core/ngx_slab.c:409-614 | Freeing a live chunk takes away exactly that chunk. Any other pointer changes no page and raises an alert, except the head of a free run. |
| `SlabPool.SlabPool.LiveApart` | nginx_collect_log/src/core/ngx_slab.c:152-614 | In every sound pool each live chunk lies inside the pool, overlaps no other live chunk, and overlaps the bitmap of no small-slab page. |
| `SlabPool.SlabPool.ClientWrites` | nginx_collect_log/src/core/ngx_slab.c:199-241 | Whatever the holder of a live chunk writes into it, the pool stays sound with the same pages: bitmaps kept in pages are out of reach. |
| `SlabState.LiveDisjoint` | nginx_collect_log/src/core/ngx_slab.c:152-395 | Two different live chunks of a well-formed page array do not overlap. |
| `SlabState.BitmapApart` | nginx_collect_log/src/core/ngx_slab.c:330-358 | No live chunk overlaps the bitmap at the front of a small-slab page. |
| `SlabState.ReservedExactly` | nginx_collect_log/src/core/ngx_slab.c:330-341 | The chunks set aside for the bitmap of a small-slab page are as many as it takes and not one more; where the bitmap is in the descriptor, none. |
| `SlabPool.SlabPool.AllocPages` | nginx_collect_log/src/core/ngx_slab.c:617-663 | The front of a free run that is long enough becomes a busy run and the rest stays a free run; null only if no run is long enough, and then nothing changes. |
| `SlabPool.SlabPool.FreePages` | nginx_collect_log/src/core/ngx_slab.c:666-690 | The run's descriptors become those of a free run and its head joins the free list, out of whatever list it was in; no other descriptor outside the lists changes. |
| `SlabPool.SlabPool.AllocSmall` | nginx_collect_log/src/core/ngx_slab.c:199-241 | From a listed page with an in-page bitmap the first free chunk becomes used and nothing else changes; the pool stays sound, so a page now full is off its slot list. |
| `SlabPool.SlabPool.AllocExact` | nginx_collect_log/src/core/ngx_slab.c:251-277 | The same for pages whose bitmap is the descriptor word. |
| `SlabPool.SlabPool.AllocBig` | nginx_collect_log/src/core/ngx_slab.c:285-319 | The same for pages with the map in the high half of the descriptor word. |
| `SlabPool.SlabPool.InitSlab` | nginx_collect_log/src/core/ngx_slab.c:329-385 | A page just taken becomes a slab page alone in the list of its slot, with its first chunk behind the bitmap used. |
| `SlabPool.SlabPool.Release` | nginx_collect_log/src/core/ngx_slab.c:445-557 | A used chunk is given back: a page that was full returns to its slot list, and a page without used chunks becomes a free run of one. |
| `SlabPool.SlabPool.FreeWhole` | nginx_collect_log/src/core/ngx_slab.c:561-587 | What a pointer into a run does, by where in the run it points. |
| `SlabPool.SlabPool.SlotFor` | nginx_collect_log/src/core/ngx_slab.c:178-187 | The slot is that of the least power of two that holds the request, or the smallest slot. |
| `SlabAddr.LiveAtPage` | nginx_collect_log/src/core/ngx_slab.c:424-443 | Whether a live chunk starts at an address can be read off the one page it lies in, by alignment and index. |
| `RbTree.RbTree.Insert` | nginx_collect_log/src/core/ngx_rbtree.c:24-154 | Keeps the tree linked, with equal black heights and no red-red edge; the in-order sequence gains the node, behind all keys not above it and before all keys above it, in plain and in wrapping order. |
| `RbTree.RbTree.Delete` | nginx_collect_log/src/core/ngx_rbtree.c:157-322 | Keeps all of that, through the successor splice and the fixup at the shared sentinel; the in-order sequence loses exactly that node. |
| `RbTree.RbTree.InsertFix` | nginx_collect_log/src/core/ngx_rbtree.c:49-93 | Re-balancing after a red leaf makes a red-black tree with the same in-order sequence. |
| `RbTree.RbTree.DeleteFix` | nginx_collect_log/src/core/ngx_rbtree.c:259-321 | From a subtree one black short, possibly the sentinel, makes a red-black tree with the same in-order sequence. |
| `RbTree.RbTree.First` | nginx_collect_log/src/core/ngx_rbtree.h:73-81 | `ngx_rbtree_min` finds the first node in order. |
| `RbOrder.PathSplits` | nginx_collect_log/src/core/ngx_rbtree.c:103-112 | In a sorted tree a search path has every key not above on its left and every key above on its right. |
| `RbOrder.PlacedSorted` | nginx_collect_log/src/core/ngx_rbtree.c:122-154 | Insertion keeps a sorted tree sorted, under the wrapping comparison too. |
| `FileTree.Lookup` | nginx_collect_log/src/core/ngx_open_file_cache.c:1120-1157 | Finds the entry with that hash and name if there is one, whatever hashes collide, and null only if there is none. |
| `FileTree.Insert` | nginx_collect_log/src/core/ngx_open_file_cache.c:1079-1117 | A new entry keeps the tree a red-black tree in the order of hash and name; the other entries keep their places. |
| `FileTree.Remove` | nginx_collect_log/src/core/ngx_open_file_cache.c:339-341 | Taking an entry out keeps the order, so lookups go on finding the others. |
| `TimerQueue.TimerQueue.constructor` | nginx_collect_log/src/event/ngx_event_timer.c:26-48 | The queue starts with no timers. |
| `TimerQueue.TimerQueue.FindTimer` | nginx_collect_log/src/event/ngx_event_timer.c:51-73 | The distance to the earliest timer under the wrapping clock, 0 if it is due, infinite if there is none. |
| `TimerQueue.TimerQueue.AddTimer` | nginx_collect_log/src/event/ngx_event_timer.h:58-99 | The timer is set within 300 ms of the time asked for; a timer already that close is left alone, any other gets exactly the new key, and other timers keep theirs. |
| `TimerQueue.TimerQueue.DelTimer` | nginx_collect_log/src/event/ngx_event_timer.h:35-55 | Exactly that timer goes. |
| `TimerQueue.TimerQueue.ExpireTimers` | nginx_collect_log/src/event/ngx_event_timer.c:76-158 | Whatever handlers do: timers fire in key order, each once, each due and set at the start; the earliest fires first; something fires if and only if something was due; at the end none is due. If no handler touches timers, those fired are the front of the order. |
| `TimerQueue.TimerQueue.UpdateTime` | nginx_collect_log/src/core/ngx_times.c:84-92 | When the clock moves, across its wrap-around too, order and keys stay, for any window that holds keys and clock. |
| `TimerQueue.TimerQueue.Cycle` | nginx_collect_log/src/event/ngx_event.c:202-266 | One turn of the event loop: after a wait of d something fires if and only if d is at least what `ngx_event_find_timer` said, beginning with the earliest timer, and none is left due; with no time passed nothing happens. |
| `TimerQueue.Rebase` | nginx_collect_log/src/core/ngx_rbtree.c:130-140 | Keys in order under the wrapping comparison are in order whatever the base of the window. |
| `TimerQueue.Closer` | nginx_collect_log/src/event/ngx_event_timer.c:70-72 | When d milliseconds pass, the signed distance to a timer falls by exactly d, across the wrap-around. |
| `FileCache.FileCache.constructor` | nginx_collect_log/src/core/ngx_open_file_cache.c:47-76 | The cache starts empty. |
| `FileCache.FileCache.OpenCached` | nginx_collect_log/src/core/ngx_open_file_cache.c:196-482 | The whole outcome for every answer of the system: the entry the name leads to afterwards with all its fields, at the front of the queue, or none; the answer; the uses and the time of use; other names lead where they led or nowhere. The system is asked if and only if the entry is not ready: absent or not kept open, asked about `valid` seconds ago or longer however often it answered since, of another inode than the one wanted, or kept for other symlink rules; a ready entry answers what the system said then. Descriptors of entries in use stay open, and at most the one just opened is new. A descriptor is lost if and only if the name flips during a new test of an entry. |
| `FileCache.FileCache.IndependentExactly` | nginx_collect_log/src/core/ngx_open_file_cache.c:222-240 | The answer is the same whatever the system would say, if and only if the entry is ready. |
| `FileCache.FileCache.ReadyAnswer` | nginx_collect_log/src/core/ngx_open_file_cache.c:222-267 | A ready entry answers what the system said when last asked about the name. |
| `FileCache.FileCache.SteadyAnswer` | nginx_collect_log/src/core/ngx_open_file_cache.c:196-482 | If the system is asked and nothing changes meanwhile, the answer is what is there: its error, a directory, or a descriptor of that inode. |
| `FileCache.FileCache.KeptExactly` | nginx_collect_log/src/core/ngx_open_file_cache.c:282-462 | The name leads to an entry afterwards if and only if the entry was ready, or the system found something or an error that is to be kept, and there is an entry to keep it in or memory for one. |
| `FileCache.FileCache.Cleanup` | nginx_collect_log/src/core/ngx_open_file_cache.c:951-962 | One use ends; those still using an entry keep its descriptor open; a detached entry is freed and its descriptor closed exactly when its last user leaves. |
| `FileCache.FileCache.CloseCached` | nginx_collect_log/src/core/ngx_open_file_cache.c:965-1008 | A descriptor is closed exactly when nobody uses it and the entry is given up or too little used. |
| `FileCache.FileCache.Expire` | nginx_collect_log/src/core/ngx_open_file_cache.c:1028-1076 | At most three entries leave, from the end of the queue, all but a forced one inactive too long; it stops only at three, at an empty queue, or at an entry used lately; entries in use keep their descriptors. |
| `FileCache.FileCache.OpenAndStat` | nginx_collect_log/src/core/ngx_open_file_cache.c:773-879 | The result by what `stat`, `open` and `fstat` answer, noted as what the system said of the name at that time; besides those of entries, at most the returned descriptor is open. |
| `FileCache.FoundIsThere` | nginx_collect_log/src/core/ngx_open_file_cache.c:773-879 | If nothing changes between the system calls, what is found is what is there, under the descriptor held already if the inode is the same. |
| `FileCache.FileCache.Bookkeeping` | nginx_collect_log/src/core/ngx_open_file_cache.c:205-447 | Tree and queue hold the same entries, each under its name and once, `current` counts them and does not exceed `max`. |
| `FileCache.FileCache.OneOwner` | nginx_collect_log/src/core/ngx_open_file_cache.c:139-482 | Every open descriptor that has not leaked is that of exactly one entry. |
| `FileCache.FileCache.Users` | nginx_collect_log/src/core/ngx_open_file_cache.c:249-252 | `count` is the number of outstanding cleanups; an entry in use is a plain file with an open descriptor; one out of the tree is in use and marked `close`. |
| `FileCache.FlipLeaks` | nginx_collect_log/src/core/ngx_open_file_cache.c:282-314 | A run from an empty cache on after which descriptor 3 is open and no entry's, for any second request the entry is not current for. |
| `Shmtx.MutualExclusion` | nginx_collect_log/src/core/ngx_shmtx.c:62-160 | For any number of processes and any run, with deaths, forced unlocks and failing semaphores, two processes are never inside together, and the lock word names the one that is. |
| `Shmtx.ForeignUnlock` | nginx_collect_log/src/core/ngx_shmtx.c:135-145 | An unlock by a process that is not inside changes nothing. |
| `ShmtxCalls.TryAlone` | nginx_collect_log/src/core/ngx_shmtx.c:62-66 | trylock takes a free lock, and leaves a held one and everything else alone. |
| `ShmtxCalls.RefusedHeld` | nginx_collect_log/src/core/ngx_shmtx.c:62-66 | Whatever other processes do meanwhile, trylock refuses only if the lock was held at some moment of the call. |
| `ShmtxCalls.LockFree` | nginx_collect_log/src/core/ngx_shmtx.c:69-132 | lock takes a free lock, and changes nothing else. |
| `ShmtxCalls.LockHeld` | nginx_collect_log/src/core/ngx_shmtx.c:69-132 | On a held lock: one test, as many more as the doubling spins below the limit, one with the process among the waiters; then it is blocked and counted once. |
| `ShmtxCalls.AwokenFree` | nginx_collect_log/src/core/ngx_shmtx.c:98-121 | A process let through lowers the semaphore by one and takes the lock if it is free. |
| `ShmtxCalls.UnlockAlone` | nginx_collect_log/src/core/ngx_shmtx.c:135-145 | In every reachable state the holder's unlock frees the lock; a counted waiter is taken off the count and posted, and only one. |
| `ShmtxCalls.ForceAlone` | nginx_collect_log/src/core/ngx_shmtx.c:148-160 | A forced unlock for the holder does the same; for any other process it changes nothing. |
| `ShmtxCalls.OneOutcome` | nginx_collect_log/src/core/ngx_shmtx.c:62-195 | What a call comes to when nobody interferes is one run and one state. |
| `Shmtx.WaitersCovered` | nginx_collect_log/src/core/ngx_shmtx.c:98-195 | Unless somebody dies at the post or a post fails, count, posts on their way and semaphore always cover all waiters. |
| `Shmtx.NoLostWakeup` | nginx_collect_log/src/core/ngx_shmtx.c:69-195 | Unless somebody dies owing a wakeup or a post fails, whenever the lock is free, the semaphore zero and somebody blocked, somebody is about to take the lock or to wake. |
| `Shmtx.WakeupComes` | nginx_collect_log/src/core/ngx_shmtx.c:163-195 | And that process on its own steps alone takes the lock or raises the semaphore. |
| `Shmtx.FatalPoints` | nginx_collect_log/src/core/ngx_shmtx.c:69-195 | For each point of the code: some run in which nobody died owing a wakeup before has a death there that strands a waiter, if and only if a wakeup is owed there. |
| `Shmtx.LostPost` | nginx_collect_log/src/core/ngx_shmtx.c:189-192 | A death at the post, or a `sem_post` that fails, leaves a waiter that nothing covers. |
| `ExactHash.HashTable.Init` | nginx_collect_log/src/core/ngx_hash.c:251-455 | For every list of names: the division by zero exactly with no names and a bucket of 8 to 23 bytes; success if and only if every element fits a bucket, some size passes the test, and memory is granted. Then the least such size is used, the buckets lie one behind the other on cache lines, and where each has room for its elements they are packed in order with a NULL pointer behind; otherwise nothing changes. |
| `ExactHash.HashTable.Find` | nginx_collect_log/src/core/ngx_hash.c:12-49 | What a walk along the elements of the bucket gives; asked with the hash of the name, that is the value of the first name stored that is spelled so in small letters, or NULL if there is none. |
| `HashSize.TrySize` | nginx_collect_log/src/core/ngx_hash.c:285-313 | A size passes if and only if no running `u_short` sum of a bucket exceeds the `u_short` bucket size. |
| `HashSize.PassesIsFits` | nginx_collect_log/src/core/ngx_hash.c:285-313 | Where no element is larger than what is left to 65536 above a full bucket, a size passes if and only if every bucket has room for its elements. |
| `HashSize.WrapsPast` | nginx_collect_log/src/core/ngx_hash.c:294-305 | Any element that takes a sum of one bucket past 65536 passes, and does not fit. |
| `HashSize.TestedExactly` | nginx_collect_log/src/core/ngx_hash.c:285-313 | For elements of up to e bytes the test of buckets of b bytes is right for all lists of names if and only if b rounded down to 8, plus e, is less than 65536. |
| `HashSize.LaidExactly` | nginx_collect_log/src/core/ngx_hash.c:285-384 | Every table accepted for buckets of b bytes and elements of up to e has the room it needs if and only if the highest sum that passes is at most 65464 and, with e, less than 65536. |
| `HashLayout.RoomEnough` | nginx_collect_log/src/core/ngx_hash.c:326-350 | The room given to a bucket, a `u_short` rounded up to cache lines, holds its elements and the end mark if and only if they take at most 65464 bytes. |
| `ExactHash.ChosenFits` | nginx_collect_log/src/core/ngx_hash.c:285-316 | Without wrapping, the size chosen is the least at which all buckets have room, and all buckets are laid out. |
| `HashStart.NothingMissed` | nginx_collect_log/src/core/ngx_hash.c:276-283 | Of the sizes below the first one tried none has room for all names, unless the search was hurried. |
| `HashStart.LeastOfAll` | nginx_collect_log/src/core/ngx_hash.c:276-316 | So, without wrapping sums, the size chosen is the least of all sizes at which every bucket has room. |
| `HashStart.HurriedStart` | nginx_collect_log/src/core/ngx_hash.c:281-283 | With a limit above 10000 and less than a hundred places for each name the search begins 1000 below the limit. |
| `ExactHash.HashTable.Fill` | nginx_collect_log/src/core/ngx_hash.c:389-407 | Every element is written whole behind those before it in its bucket, and no write touches another bucket. |
| `ExactHash.Advance` | nginx_collect_log/src/core/ngx_hash.c:43-44 | The alignment on the finding side lands exactly where the next element was put. |
| `ExactHash.WalkIsSearch` | nginx_collect_log/src/core/ngx_hash.c:22-48 | A walk along the bucket of a hash finds what a search of the whole list of names finds. |
| `WildHash.WildcardInit` | nginx_collect_log/src/core/ngx_hash.c:458-600 | Grouping by first label and recursion build the table (the tag bits of a value are its constructors) that the list of label lists stands for, whatever characters the names have. |
| `WildFind.FindHead` | nginx_collect_log/src/core/ngx_hash.c:52-144 | The search from the last dot is the search along the labels from the right. |
| `WildFind.FindInTail` | nginx_collect_log/src/core/ngx_hash.c:147-207 | The search from the first dot is the search along the labels from the left. |
| `WildTable.FindRight` | nginx_collect_log/src/core/ngx_hash.c:52-144 | In a table built from keys that stand together a lookup gives the value of the most specific key that matches, as a search of the whole list does, and nothing if none matches. |
| `WildTable.TailRight` | nginx_collect_log/src/core/ngx_hash.c:147-207 | The same for "x.*" keys. |
| `WildTable.AnswerIsRight` | nginx_collect_log/src/core/ngx_hash.c:147-207 | The right answer from the left is the right answer for the name without its last label. |
| `WildScatter.Misses` | nginx_collect_log/src/core/ngx_hash.c:458-600 | If keys with different values do not stand together, the lookup of some name misses the most specific key that matches. |
| `WildLabels.DnsStrcmp` | nginx_collect_log/src/core/ngx_string.c:824-852 | The loop compares as the difference of the first characters that differ, in lower case and with the dot lowest, to the end of the shorter name. |
| `WildLabels.EqualNames` | nginx_collect_log/src/core/ngx_string.c:824-852 | Names without spaces compare as equal if and only if they are the same but for capital letters, by a list of the letters of the alphabet in pairs. |
| `WildLabels.LowerIsSmall` | nginx_collect_log/src/core/ngx_string.h:47-47 | `ngx_tolower` gives the small letter of each of the 26 pairs, and every other character itself. |
| `WildLabels.NoCapitals` | nginx_collect_log/src/core/ngx_hash.c:633-648 | There is no capital letter in a name made small. |
| `WildLabels.SameLowered` | nginx_collect_log/src/core/ngx_hash.c:633-648 | Two names become one in small letters if and only if they are the same but for capital letters. |
| `WildLabels.CompareIsListLess` | nginx_collect_log/src/core/ngx_string.c:824-852 | For clean names that is the order of their lists of labels, and 0 only for equal names. |
| `WildKeys.KeysArrays.AddKey` | nginx_collect_log/src/core/ngx_hash.c:706-978 | Declined exactly for malformed keys; busy exactly when the key conflicts with what was given before, as it does from now on; otherwise one name with the right labels goes to the right list, in lower case. The notes of names seen gain exactly this key's, even when it is refused. |
| `WildKeys.KeysArrays.CaseAside` | nginx_collect_log/src/core/ngx_hash.c:706-978 | A key conflicts if and only if the same key in other letters, capital or small, does. |
| `WildKeys.GivenTwice` | nginx_collect_log/src/core/ngx_hash.c:706-978 | What has been accepted is busy the second time, in whatever letters it is given. |
| `WildGiven.GiveAll` | nginx_collect_log/src/core/ngx_hash.c:706-978 | For any list of keys given from the beginning on: each is declined if malformed, busy if and only if an accepted key is in its way (".x" is in the way of x and "*.x") or it is x after any ".x", and otherwise accepted. |
| `WildGiven.RefusedClaims` | nginx_collect_log/src/core/ngx_hash.c:793-870 | After "*.a" and the refused ".a", "a" is refused, though no accepted key is in its way. |
| `WildKeys.TurnRound` | nginx_collect_log/src/core/ngx_hash.c:872-904 | The key turned round has the labels of the name from the right. |
| `WildKeys.HashIsWeighted` | nginx_collect_log/src/core/ngx_hash.c:603-614 | The hash of a name is the number that its characters are the digits of to the base 31, modulo 2^64. |
| `WildKeys.Classify` | nginx_collect_log/src/core/ngx_hash.c:726-762 | The kind of a key: malformed, plain, ".x", "*.x" or "x.*". |
| `WildNames.HeadLookup` | nginx_collect_log/src/core/ngx_hash.c:52-144 | For every set of keys accepted, and sorted: head lookups of all names with all values give the most specific ".x" or "*.x" that matches, or nothing, if and only if the keys stand together, as they do without characters up to the space. |
| `WildNames.TailLookup` | nginx_collect_log/src/core/ngx_hash.c:147-207 | The same for "x.*". |
| `WildNames.HeadsExactly` | nginx_collect_log/src/core/ngx_hash.c:52-144 | For any list of keys, lookups from the right are right for all names and values if and only if the keys stand together. |
| `WildNames.TailsExactly` | nginx_collect_log/src/core/ngx_hash.c:147-207 | The same from the left. |
| `WildNames.CharacterExactly` | nginx_collect_log/src/core/ngx_string.c:824-852 | Some accepted and sorted set of keys over a character has a lookup that goes wrong, from the left and from the right, if and only if the character is at or below the space. |
| `WildNames.Scatter` | nginx_collect_log/src/core/ngx_hash.c:458-600 | For every such character: three keys added, in order, built and looked up, with the value of "a.*" for "a.c.x" though "a.c.*" matches. |
| `WildCombined.FindCombined` | nginx_collect_log/src/core/ngx_hash.c:210-244 | Over the three hashes made of what `ngx_hash_add_key` accepted: the value of the first exact name, else of the longest ".x" or "*.x" that the name ends with, else of the longest "x.*" that it begins with, else nothing. |
| `WildCombined.LevelLookup` | nginx_collect_log/src/core/ngx_hash.c:67-96 | At each level what `ngx_hash_find` gives is the entry of the label. |
| `WildCombined.MakeHead` | nginx_collect_log/src/http/ngx_http.c:1545-1561 | Sorting and building what was accepted gives the table that the combined lookup is about. |
| `WildCombined.MakeTail` | nginx_collect_log/src/http/ngx_http.c:1563-1579 | The same for "x.*". |
| `WildFind.DotPattern` | nginx_collect_log/src/core/ngx_hash.c:100-125 | ".x" matches exactly x and the names that end with ".x". |
| `WildFind.StarPattern` | nginx_collect_log/src/core/ngx_hash.c:100-125 | "*.x" matches exactly the names that end with ".x". |
| `WildFind.TailPattern` | nginx_collect_log/src/core/ngx_hash.c:147-207 | "x.*" matches exactly the names that start with "x.". |
| `ConfToken.ConfFile.ReadToken` | nginx_collect_log/src/core/ngx_conf_file.c:426-729 | Reading through the sliding 4096-byte buffer gives the words, terminator, line count, position and errors of reading the whole text at once, wherever refills happen; what that is, `ConfLayout` says. |
| `ConfToken.ConfFile.Refill` | nginx_collect_log/src/core/ngx_conf_file.c:478-530 | A refill keeps all that is being read and always brings at least one new character. |
| `ConfToken.CopyWord` | nginx_collect_log/src/core/ngx_conf_file.c:684-716 | The copying loop resolves escapes as the definition on the whole word does. |
| `ConfPrint.OnlyTheLimit` | nginx_collect_log/src/core/ngx_conf_file.c:478-500 | The buffer makes no difference except that a text may be refused as too long, and that happens if and only if 4096 characters come to be read since the last beginning of a word, comment or directive end. |
| `ConfPrint.LongComment` | nginx_collect_log/src/core/ngx_conf_file.c:478-500 | A comment of 4096 characters or more is refused too. |
| `ConfPrint.ReadsBack` | nginx_collect_log/src/core/ngx_conf_file.c:546-729 | Any non-empty list of words short enough for the buffer, quoted, escaped, and ended by ";" or "{", anywhere in a file, is read back as it was, with the lines counted. |
| `ConfLayout.ReadsLayout` | nginx_collect_log/src/core/ngx_conf_file.c:426-729 | A text put together from blanks, comments, bare words and words in single or double quotes, with escapes and variables in braces, and ended by ";", "{", "}", the end of the file or a wrong character, is read as the words it is made of, with their escapes resolved, and the end or error that belongs to it, with position and lines. |
| `ConfLayout.EveryText` | nginx_collect_log/src/core/ngx_conf_file.c:426-729 | Every text from every place on is one such layout, and is read so. |
| `ConfLayout.ShortIsRead` | nginx_collect_log/src/core/ngx_conf_file.c:426-729 | If the layout is not longer than the buffer, the code with its limit reads it so. |
| `ConfLayout.OwnText` | nginx_collect_log/src/core/ngx_conf_file.c:684-716 | A word stands for its own text if and only if it has no escape of a quote, a backslash, t, r or n. |
| `ConfLayout.UnescapeAll` | nginx_collect_log/src/core/ngx_conf_file.c:684-716 | Escape by escape, the copying loop gives what each one stands for. |
| `Radix.RadixTree.constructor` | nginx_collect_log/src/core/ngx_radix_tree.c:21-46 | A tree starts with a root and no prefix. |
| `Radix.RadixTree.Find` | nginx_collect_log/src/core/ngx_radix_tree.c:236-263 | The value of the longest stored prefix of the key. |
| `Radix.BestIsLongest` | nginx_collect_log/src/core/ngx_radix_tree.c:236-263 | That value belongs to a stored prefix of the key than which none longer is stored, or no prefix of it is stored. |
| `RadixMask.MaskExactly` | nginx_collect_log/src/core/ngx_radix_tree.c:108-170 | The prefix that a key and a mask are stored under holds exactly the addresses that agree with the key under the mask, for all keys, if and only if the mask is contiguous. |
| `Radix.RadixTree.Insert` | nginx_collect_log/src/core/ngx_radix_tree.c:108-170 | Busy exactly if the prefix has a value already; otherwise exactly that prefix gets one; without memory no prefix changes. |
| `Radix.RadixTree.Delete` | nginx_collect_log/src/core/ngx_radix_tree.c:173-233 | The null parent is followed exactly for prefix length 0 on a childless root; otherwise Ok if and only if the prefix is stored or is a leaf, and then exactly that prefix goes, whatever nodes are pruned for reuse; an error changes nothing. |
| `Radix.RadixTree.Alloc` | nginx_collect_log/src/core/ngx_radix_tree.c:463-488 | A node handed out is in no other use: the first free one, or else the next of 128 in a page; none if and only if there is no free node, no room in the page, and no memory. |
| `OutChain.OutputChain.Output` | nginx_collect_log/src/core/ngx_output_chain.c:41-216 | Takes the new buffers in behind what is queued and keeps the chain sound, for whatever the filter sends and answers; The answer is an error if and only if memory or reading failed or the filter said so, Done if it said so, and otherwise what it said last if nothing is left queued, or Again, with no copy buffer left and a buffer to be copied next. The filter is called at least once unless there is an error, and buffers that only carry a mark reach it all, once and in order. |
| `OutChain.OutputChain.Step` | nginx_collect_log/src/core/ngx_output_chain.c:90-195 | The first queued buffer is dropped, shipped or copied; one that the filter can take as it is is passed on uncopied; every buffer of the list fits what the filter can take; it stops only if the buffer must be copied and there is none to copy to. |
| `OutChain.OutputChain.BuildList` | nginx_collect_log/src/core/ngx_output_chain.c:86-195 | The list made of the queue holds only buffers that the filter can take, marks in their order, and ends early only for lack of copy buffers. |
| `OutChain.TakesAll` | nginx_collect_log/src/core/ngx_output_chain.c:382-420 | A new copy buffer takes all of the front buffer if and only if that is small enough, or is the last, with one buffer allowed, and less than a quarter too large. |
| `OutChain.OutputChain.Conserved` | nginx_collect_log/src/core/ngx_output_chain.c:41-216 | Between calls the bytes handed to the filter, followed by those queued, are all bytes that came in, in order; the bytes sent, followed by those the filter keeps, are all it was handed; copy buffers never exceed their limit; a free one holds nothing unsent. |
| `OutChain.OutputChain.ConservedAtError` | nginx_collect_log/src/core/ngx_output_chain.c:165-210 | When a call ends with an error, what was handed over is still a beginning of what came in, and nothing of it is lost or overwritten. |
| `OutChain.OutputChain.LostWhileBuilding` | nginx_collect_log/src/core/ngx_output_chain.c:135-182 | If a list was being built, what came in is what was handed over, then that list, the buffer copied to, and the queue. |
| `OutChain.OutputChain.LostWithFilter` | nginx_collect_log/src/core/ngx_output_chain.c:184-210 | If the filter answered so, what came in is what was handed over, then the queue. |
| `OutChain.OutputChain.CopyBuf` | nginx_collect_log/src/core/ngx_output_chain.c:458-598 | The copy holds as many of the first bytes as it has room for and the source the rest, in their order; the buffer copied to is not one that is being sent; it gets the marks of the source if all of it fits and otherwise keeps its own. |
| `OutChain.OutputChain.Obtain` | nginx_collect_log/src/core/ngx_output_chain.c:135-163 | The first free buffer, or if there is none a new one below the limit; stops exactly if there is neither or a list waits to be sent. |
| `OutChain.OutputChain.Update` | nginx_collect_log/src/core/ngx_buf.c:184-221 | Sent buffers at the front of the busy list are recycled or dropped; afterwards the first busy one has bytes left. |
| `OutChain.OutputChain.AddCopy` | nginx_collect_log/src/core/ngx_output_chain.c:258-328 | The queue gains the buffers in order, all of them unless memory runs out. |
| `OutBuf.LoadedOk` | nginx_collect_log/src/core/ngx_output_chain.c:485-530 | A copy has the same bytes in memory and, if it is marked so, in the file. |
| `OutBuf.CopiedMarks` | nginx_collect_log/src/core/ngx_output_chain.c:485-598 | Flush, last and last-in-chain marks of a copy: the source's if its end was copied, otherwise those that the copy buffer had. |
| `OutBuf.StaleMarks` | nginx_collect_log/src/core/ngx_output_chain.c:485-598 | Those are the marks that belong to the bytes if and only if the end was copied or the copy buffer had none. |
| `GmTime.GmTime` | nginx_collect_log/src/core/ngx_times.c:282-372 | For every `time_t`: the fields are the Gregorian date of the time if and only if it is at least 0 and before year 2147483648; the time of day and the weekday are those of the time taken as unsigned. |
| `GmTime.YearFits` | nginx_collect_log/src/core/ngx_times.c:361-371 | The year survives the store to an `int` if and only if the time lies before that bound. |
| `GmTime.Estimate` | nginx_collect_log/src/core/ngx_times.c:309-327 | Gauss' formula gives the March-based year or the one after. |
| `GmTime.DateUnique` | nginx_collect_log/src/core/ngx_times.c:282-372 | No other date has that day number. |
| `Crc32.Short` | nginx_collect_log/src/core/ngx_crc32.h:20-35 | With the small table: the CRC-32 of section 5.5 of the PNG specification, bit by bit, of any bytes. |
| `Crc32.Long` | nginx_collect_log/src/core/ngx_crc32.h:38-50 | With the large table: the same CRC. |
| `Crc32.Update` | nginx_collect_log/src/core/ngx_crc32.h:57-69 | Continues the bit-by-bit register. |
| `Crc32.Pieces` | nginx_collect_log/src/core/ngx_crc32.h:53-76 | Updating in pieces is updating with all bytes at once. |
| `CrcTables.Table256Right` | nginx_collect_log/src/core/ngx_crc32.c:34-99 | Each of the 256 entries is its index after eight bits of the definition. |
| `CrcTables.Table16Right` | nginx_collect_log/src/core/ngx_crc32.c:26-31 | Each of the 16 entries is its index after four bits of the definition. |
| `Base64.Encode` | nginx_collect_log/src/core/ngx_string.c:1060-1099 | The loop writes the letters and padding of section 4 of RFC 4648. |
| `Base64.Decode` | nginx_collect_log/src/core/ngx_string.c:1157-1198 | An error exactly if a character before the padding is foreign or one letter is left over; otherwise the bytes the letters stand for, in either alphabet. |
| `Base64.RoundTrip` | nginx_collect_log/src/core/ngx_string.c:1060-1198 | Decoding undoes encoding for every byte string. |
| `Base64Letters.PlaceOf` | nginx_collect_log/src/core/ngx_string.c:1065-1145 | The encoding table is the alphabet of section 4 of RFC 4648 in order, and the decoding tables give each letter's place in the alphabets of sections 4 and 5. |
| `Base64Letters.KnownOnly` | nginx_collect_log/src/core/ngx_string.c:1104-1145 | The decoding tables know the 64 letters of their alphabet and no other character. |
| `Base64Letters.SameNumber` | nginx_collect_log/src/core/ngx_string.c:1072-1079 | Three bytes and their four letters are the same number of 24 bits. |
| `Base64Letters.Padding` | nginx_collect_log/src/core/ngx_string.c:1081-1098 | An encoding is its letters and then the padding signs that its length asks for. |
| `Base64Letters.LettersCount` | nginx_collect_log/src/core/ngx_string.c:1072-1098 | One letter for each six bits begun. |
| `Base64Letters.UrlRoundTrip` | nginx_collect_log/src/core/ngx_string.c:1128-1198 | Every byte string spelled in the alphabet for URLs, with any padding or none, is decoded to itself. |
| `UriEscape.Escape` | nginx_collect_log/src/core/ngx_string.c:1339-1505 | The loop writes the percent-encoding by the bitmap. |
| `UriTables.EscapesExactly` | nginx_collect_log/src/core/ngx_string.c:1347-1470 | Each of the seven tables escapes exactly the characters listed for it, by character. |
| `UriTables.HexDigits` | nginx_collect_log/src/core/ngx_string.c:1345-1345 | The digits written are "0" to "f" in order, and both they and the capitals are read back. |
| `UriTables.DigitOnly` | nginx_collect_log/src/core/ngx_string.c:1546-1626 | No other character is read as a hexadecimal digit. |
| `UriEscape.CountEscapes` | nginx_collect_log/src/core/ngx_string.c:1470-1486 | The counting call gives exactly the room that the writing call needs. |
| `UriEscape.Unescape` | nginx_collect_log/src/core/ngx_string.c:1508-1636 | For each type, to another place or in place: the text is read as a sequence of escapes and other bytes; exactly the bytes it stands for are written, never ahead of the reading, nothing else changes, and the source pointer ends where the type stops. |
| `UriEscape.WrittenIsText` | nginx_collect_log/src/core/ngx_string.c:1524-1632 | The state machine of the loop gives what the grammar of escapes gives. |
| `UriEscape.NoOvertaking` | nginx_collect_log/src/core/ngx_string.c:1524-1632 | From every state, what is written is no longer than what is read and what was held back. |
| `UriEscape.StopsAt` | nginx_collect_log/src/core/ngx_string.c:1540-1626 | Type 0 reads all; the others read all, or stop behind a question mark or the escape of one, which is then the last byte written. |
| `UriRoundTrip.RoundTrip` | nginx_collect_log/src/core/ngx_string.c:1339-1636 | For every table, each of types 0, URI and REDIRECT, and every text: unescaping undoes escaping if and only if the text has no percent sign under the REFRESH table (none but in escapes that REDIRECT leaves as spelled, for that type), no question mark but a last one for URI and REDIRECT, and, for REDIRECT, no escaped byte outside "%" to DEL. |
| `UriRoundTrip.NothingLeft` | nginx_collect_log/src/core/ngx_string.c:1339-1505 | Nothing that the table escapes is left in an escaped text, except the percent signs put in. |

## Left out

- SlabPool.SlabPool.FreeLocked: is not for pointers past the last page descriptor or into a page's own bitmap, where the code reads descriptors that are not there or frees part of the bitmap.
- SlabPool.SlabPool.constructor: is not for memory that has no page inside, as `SlabPool.HasPageExactly` says which; the locking around allocation is that of the mutex.
- Radix.RadixTree.constructor: does not preallocate nodes; the 128-bit tree is not compiled in this configuration.
- TimerQueue.TimerQueue.ExpireTimers: handlers set timers with a positive delay; with a delay of 0 the loop of the code need not end.
- TimerQueue.TimerQueue.AddTimer: clock and timers lie within half the range of the clock, as the wrapping comparison demands.
- TimerQueue.TimerQueue.Cycle: no accept mutex, posted events or timer resolution.
- FileCache.FileCache.OpenCached: `count` and `uses` are unbounded (24 and 32 bits in the code); an inode keeps its kind while a descriptor on it is open; vnode events, the path without a cache, `test_only`, and how `openat` walks a path are not modelled; the tree is a map here and a red-black tree in `FileTree`.
- ShmtxCalls.LockHeld: is for builds with semaphores; without one the code yields and tries again without end.
- Shmtx.NoLostWakeup: the semaphore and the count of waiters are unbounded; interrupted `sem_wait` calls are repeated and leave no trace.
- ExactHash.HashTable.Init: what is written where a bucket has not the room its elements need is not modelled, only that it happens; other sums than the `u_short` ones are unbounded.
- WildHash.WildcardInit: the table at each level is a list of entries, which `WildCombined.LevelLookup` joins to what `ngx_hash_find` finds; no key is behind one that it begins, as holds of sorted keys; sorting itself and memory errors are not modelled.
- WildLabels.CompareIsListLess: is for names without characters up to the space; what happens with them is `WildNames.CharacterExactly`.
- WildCombined.FindCombined: the three hashes have been built, and the keys of the wildcard hashes stand together, as `WildNames.HeadLookup` and `TailLookup` say when.
- ConfToken.ConfFile.ReadToken: the mode that reads a parameter instead of a file, and errors of memory and reading, are not modelled.
- OutChain.OutputChain.Output: direct I/O, file AIO and the sendfile limit are not modelled; input buffers do not carry the tag of the chain; the filter sends in order.
- UriRoundTrip.RoundTrip: is for the types that callers pass, not for both bits together.
- Base64.Encode: bit operations are written as arithmetic on bytes.
- TLS, regular expressions, configuration directives, sockets, the resolver, event modules, logging and the HTTP and mail modules.
