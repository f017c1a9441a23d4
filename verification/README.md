# Verified models of memcached 1.6.17 and a parallel merge sort

The storage, indexing, eviction, transmission and checksum cores of memcached
1.6.17 (`p1a`), and the parallel merge sort of `p3a`, written again in Dafny
and proved against what they are for. `dafny verify dfyconfig.toml` checks
everything.

## Components

| files | what they model | main result |
|---|---|---|
| `ExtState`, `ExtPages`, `ExtBuffers`, `ExtData`, `ExtRuns`, `ExtTheorems`, `ExtInit`, `ExtLayout`, `Extstore` | the external storage engine as steps under its locks, and as a class whose methods take those steps | in every run, an accepted read of a handle yields the bytes that were written under it; pages are partitioned, buffers and IO objects conserved |
| `ExtReissue`, `ExtWitness` | its 32-bit page versions over whole runs | exactly when a pair of page and version comes back, and a run in which a stale handle reads other bytes |
| `HashTable`, `HashLocks`, `Assoc` | the hash table that expands while workers run | two tables and a cursor are one map under every interleaving; one item lock covers each migration; iteration returns each item once |
| `LruList`, `LruState`, `LruWorld`, `LruCrawl`, `LruMachine`, `LruRuns`, `Lru` | the segmented LRU and its reference counts, as steps under one lock each, and as a class whose methods take those steps | in every interleaving of the sections that hold their locks, lists are well formed with exact sizes, counts are links plus holders, and an operation in progress can go on |
| `LruPull`, `LruWalk`, `LruTail`, `LruWitness` | lru_pull_tail | what it does to each item and list, when it stops, and exactly when its result hides a change or it leaks a reference |
| `LruBump` | asynchronous bumps | entries keep their references and are applied in order; what that makes of items and lists |
| `Crawler`, `LruCrawler` | the crawlers inside the lists | while the cache runs, a crawl returns each undisturbed item once |
| `LruQuit`, `LruRace` | a crawler that leaves its list without the lock, statement by statement | harmless in every run in which no other thread links or unlinks in that class meanwhile; with one link or unlink in between, exactly when the list breaks |
| `RespBundle`, `Transmit` | response slots, and sending under short writes | no slot is handed out twice; the bytes taken by the socket are a prefix of the queued responses, each byte once |
| `Gf2`, `Crc32c`, `Crc32cHw`, `Crc32cSw` | CRC-32C (section 12.1 of RFC 3720) | the three-way and the two table-driven forms equal the bit-at-a-time definition for every buffer, length and alignment |
| `StableSort`, `ParallelSort`, `PsortThreads` | the multithreaded merge sort, whole threads in place and then access by access | sorted, stable and a permutation for every input, number of threads and interleaving of their reads and writes |
| `BipBuffer`, `Md5`, `Base64`, `Itoa` | buffer and codec cores | first in, first out with peeked bytes in place; digests depend on the bytes alone; round trips; canonical numerals |
| `Jenkins`, `Tokens`, `Delta` | the key hash, the tokenizer, and the arithmetic of incr, decr, mult and div | the three paths of the hash agree and mixing loses nothing; batches of tokens are the words of the line; exactly when the division loop ends, and when it ends at the quotient |
| `Basics` | bytes, addresses, division | |

Structures that the C code reaches through pointers are kept as maps from
addresses, or as sequences of records, in the fields of a class; the methods
reassign them one write at a time, in the order of the C code. Where other
threads may run between two locks, the methods are the critical sections, a
machine with one step for each of them is run in every order, and each method
is proved to take its step of the machine.

The lock discipline is taken from the comments and calls in the source. Each
step of a machine is one critical section. The environment (what the socket
takes, which item lock a trylock gets, whether memory is left, the order in
which threads run) is a parameter, so every statement holds for all its
behaviours.

## Findings

- A storage page version is a 32-bit counter (extstore.c:151). `ReissuedIff`: in a
  run, a pair of page and version comes back exactly if some page is allocated
  twice with a multiple of 2^32 allocations in between. `AcceptedIff`: from then
  on a stale handle of that page is accepted. `StaleRead`: an engine of two pages
  reaches this from its start, and the first handle reads the bytes of a later
  object. `ReadsReturnWhatWasWritten` and `NeverReissued` therefore ask for fewer
  than 2^32 allocations.
- `HiddenChange`: with LRU_PULL_CRAWL_BLOCKS, lru_pull_tail returns 0 when it
  meets a crawler, even after it has reclaimed or moved items (items.c:1127-1130).
  It does so exactly if the list has a crawler behind which, towards the tail, are
  fewer than five items, all of them locked, dead, or active in WARM, and one that
  is not locked. `BlockedWitness` is a reachable case.
- `LeakIff`: LRU_PULL_RETURN_ITEM outside COLD, or together with LRU_PULL_EVICT,
  leaves a reference and an item lock with nobody (items.c:1264-1273) exactly when
  the walk stops at an item. `FindsWitness` reaches such a list for all flags. The
  interface admits these flags; no caller in the source passes them (storage.c:481
  asks for COLD with LRU_PULL_RETURN_ITEM alone).
- `Base64.RoundTrip`: decoding an encoding succeeds exactly if there is room for
  whole blocks of three, so the decoder refuses some encodings whose bytes would
  fit.
- The division loop of do_add_delta adds up delta modulo 2^64 (memcached.c:2308).
  `EndsIff`: it ends exactly if the value is below 2^64 less the largest power of
  two that divides delta. `QuotientIff`: what it has counted then is the quotient
  exactly if the first multiple of delta above the value is below 2^64.
  `DivideWitness`: for value 2^64 - 1 and delta 2 it never ends, and for 2^64 - 2
  and 7 it ends with another number.
- mult by a delta from 2^63 up leaves the value as it is, because delta is signed
  there (memcached.c:2292); the other operations treat its bits as unsigned.
- The test for overflow in the base64 encoder is exact: `Base64.EncodeInto`.
- The crawler thread calls lru_crawler_class_done at crawler.c:437 and 441 without
  the list lock. `QuitUnlocked`: however the four statements of
  do_item_unlinktail_q are spread over steps of other threads, the outcome is that
  of leaving in one step, as long as none of those steps links or unlinks in the
  same class. `RaceIff`: with one link or unlink in that class between two of the
  statements, the list is what both together should give exactly unless `Clash`
  holds: the other item is next to the crawler or the crawler is at the head, and
  the moment is an unlucky one. `RaceWitness` reaches a list of an item and a
  crawler on which an unlink after the first statement leaves the crawler as the
  head and no tail.

## Model

| member | source | states |
|---|---|---|
| ExtTheorems.ReadsReturnWhatWasWritten | p1a/memcached-1.6.17/extstore.c:739-846 | In every run after an object is written, a read of its handle that is served from the buffer, or from disk at any time until it is over, gets the bytes that were written, as long as fewer than 2^32 pages were allocated |
| ExtTheorems.RunInv | p1a/memcached-1.6.17/extstore.c:530-983 | Every interleaving of writers, readers, IO threads, deletes, closes and maintenance keeps the partition of pages, the conservation of buffers, the place of every byte and the reference counts |
| ExtTheorems.BufferReadIsExact | p1a/memcached-1.6.17/extstore.c:715-732 | For an accepted read past `written` the assertions of _read_from_wbuf hold and the bytes copied are those of the object |
| ExtTheorems.DiskReadIsExact | p1a/memcached-1.6.17/extstore.c:782-846 | While an accepted disk read is under way its page keeps its generation, and the disk holds the object's bytes |
| ExtTheorems.WriteRecords | p1a/memcached-1.6.17/extstore.c:586-604 | A successful write adds exactly its bytes under a handle that was never given out |
| ExtTheorems.NoEarlyFree | p1a/memcached-1.6.17/extstore.c:942-983 | A page is freed only by the maintenance thread, when it is inactive, unreferenced and nobody reads from it |
| ExtTheorems.NeverReissued | p1a/memcached-1.6.17/extstore.c:151-153 | Once a page has left a generation it never holds it again, below 2^32 allocations |
| ExtTheorems.StepEffect | p1a/memcached-1.6.17/extstore.c:402-436 | A step leaves the use of a page alone, takes a free page under the version that is next and logs it, or frees an unused one; written objects are never taken back |
| ExtReissue.StepIssues | p1a/memcached-1.6.17/extstore.c:420-428 | A step that allocates gives the page the version of the number of its allocation, counted from 1 modulo 2^32 |
| ExtReissue.IssuesAre | p1a/memcached-1.6.17/extstore.c:151-153 | The pairs that a run issues are its allocated pages, each with the version of its number |
| ExtReissue.ReissuedIff | p1a/memcached-1.6.17/extstore.c:151-153 | In every run a pair of page and version is issued twice exactly if some page is allocated twice with a multiple of 2^32 allocations in between |
| ExtReissue.RunDated | p1a/memcached-1.6.17/extstore.c:420-428 | In every run a page in use has the version of its last allocation |
| ExtReissue.AcceptedIff | p1a/memcached-1.6.17/extstore.c:784-785 | In every run from the start, a handle of the k-th allocation is accepted exactly if its page is in use, open, and last allocated a multiple of 2^32 allocations after the k-th |
| ExtWitness.Cycles | p1a/memcached-1.6.17/extstore.c:402-983 | A page can be allocated, filled, flushed, closed and freed any number of times |
| ExtWitness.StaleRead | p1a/memcached-1.6.17/extstore.c:784-794 | For all bytes: a run from the start of an engine with sizes that extstore_init accepts, after which a handle recorded with some bytes is accepted and reads others |
| ExtTheorems.PagesPartitioned | p1a/memcached-1.6.17/extstore.c:327-344 | Every page but page 0 is on exactly one list, the one its flags name, and page_free is the length of the free lists |
| ExtTheorems.CallbackAsserts | p1a/memcached-1.6.17/extstore.c:475-478 | A flush callback finds its own buffer attached at the place the page has reached |
| ExtTheorems.AllocateAsserts | p1a/memcached-1.6.17/extstore.c:404 | Whenever a writer allocates, the head page of its bucket is full |
| ExtRuns.StepInv | p1a/memcached-1.6.17/extstore.c:530-983 | Each critical section of each thread keeps the invariant |
| ExtRuns.AllocateWriters | p1a/memcached-1.6.17/extstore.c:402-436 | A page pushed on a bucket keeps all pages behind the head full |
| ExtRuns.FreeWriters | p1a/memcached-1.6.17/extstore.c:862-876 | Unlinking a page keeps that, and what a writer between two locks relies on |
| ExtRuns.AcceptedIsOnDisk | p1a/memcached-1.6.17/extstore.c:785-791 | A live object that is not in the buffer of its page is on disk below `written` |
| ExtRuns.PendingHolds | p1a/memcached-1.6.17/extstore.c:786-790 | Every accepted disk read holds a reference on a page in use |
| ExtPages.AllocateKeepsPages | p1a/memcached-1.6.17/extstore.c:406-428 | Allocation moves one page from a free list to a bucket |
| ExtPages.FreeKeepsPages | p1a/memcached-1.6.17/extstore.c:862-898 | Freeing moves one page from its bucket to its free list |
| ExtPages.CandidateOk | p1a/memcached-1.6.17/extstore.c:408 | When a free list has a page, page_free is positive |
| ExtBuffers.IoAvailable | p1a/memcached-1.6.17/extstore.c:500-503 | _submit_wbuf never finds the IO stack empty |
| ExtBuffers.AttachBuffers | p1a/memcached-1.6.17/extstore.c:439-459 | Attaching a buffer keeps allocated = written + buffer within the page, and every buffer in one place |
| ExtBuffers.FlushedBuffers | p1a/memcached-1.6.17/extstore.c:467-493 | The callback returns buffer and IO object and advances the page by one buffer |
| ExtData.StoreData | p1a/memcached-1.6.17/extstore.c:586-604 | A write puts its object into the buffer without touching the others |
| ExtData.PwriteData | p1a/memcached-1.6.17/extstore.c:822-827 | A pwrite lands past everything that is on the disk page |
| ExtData.FlushedData | p1a/memcached-1.6.17/extstore.c:475-482 | The callback moves `written` past bytes that the pwrite has put on disk |
| ExtData.FreeData | p1a/memcached-1.6.17/extstore.c:877-886 | Freeing a page ends the generation of its objects and no read in progress is on it |
| ExtData.TakeData | p1a/memcached-1.6.17/extstore.c:420-428 | A new generation shows no object of an earlier one |
| ExtInit.FreshInv | p1a/memcached-1.6.17/extstore.c:297-366 | The engine that extstore_init sets up is in order |
| ExtLayout.Interleave | p1a/memcached-1.6.17/extstore.c:300-322 | Every file gives its number of pages, no two pages share a byte, and none lies outside its file |
| ExtLayout.NextFile | p1a/memcached-1.6.17/extstore.c:304-315 | The next file in the round that has pages left |
| Extstore.Init | p1a/memcached-1.6.17/extstore.c:221-366 | Refuses exactly the configurations that fail a check, with the error of a check that fails; otherwise an engine in order, its pages spread over the files without overlap |
| Extstore.Engine.constructor | p1a/memcached-1.6.17/extstore.c:327-366 | Fills the free lists and stacks; the result satisfies the invariant of all runs |
| Extstore.Engine.AllocatePage | p1a/memcached-1.6.17/extstore.c:402-436 | Takes the machine's allocation step, its assertions included |
| Extstore.Engine.AllocateWbuf | p1a/memcached-1.6.17/extstore.c:439-459 | Attaches the top buffer of the stack at the end of the page, or nothing |
| Extstore.Engine.SubmitWbuf | p1a/memcached-1.6.17/extstore.c:498-519 | Zeroes the rest of the buffer and hands it to the IO threads |
| Extstore.Engine.StoreObject | p1a/memcached-1.6.17/extstore.c:586-604 | Copies the object behind the others and returns its handle |
| Extstore.Engine.PickPage | p1a/memcached-1.6.17/extstore.c:537-545 | The first part of a write request is the machine's step |
| Extstore.Engine.WriteTo | p1a/memcached-1.6.17/extstore.c:547-604 | The part under the page lock; a handle comes back exactly when the bytes were recorded under it |
| Extstore.Engine.WriteActive | p1a/memcached-1.6.17/extstore.c:560-575 | Submits, attaches and stores in that order on an active page |
| Extstore.Engine.GetRoom | p1a/memcached-1.6.17/extstore.c:560-568 | A buffer that is too full is submitted, and a page without one gets one while there is room |
| Extstore.Engine.RetryPage | p1a/memcached-1.6.17/extstore.c:553-556 | The second allocation, whose assertion holds although the lock was given up in between |
| Extstore.Engine.WbufCallback | p1a/memcached-1.6.17/extstore.c:467-493 | The callback with its assertions |
| Extstore.Engine.WriteBuffer | p1a/memcached-1.6.17/extstore.c:822-827 | Writes the whole buffer to its place on disk |
| Extstore.Engine.AcceptRead | p1a/memcached-1.6.17/extstore.c:782-800 | Refuses, serves the object's bytes from the buffer, or takes a reference |
| Extstore.Engine.FinishRead | p1a/memcached-1.6.17/extstore.c:801-843 | Returns the object's bytes from disk and gives the reference back |
| Extstore.Engine.DeleteObjects | p1a/memcached-1.6.17/extstore.c:649-682 | Lowers the counters, never below 0, if the generation is current |
| Extstore.Engine.ClosePage | p1a/memcached-1.6.17/extstore.c:697-707 | Closes a page of the current generation |
| Extstore.Engine.FreePage | p1a/memcached-1.6.17/extstore.c:852-898 | Resets the page and moves it to its free list |
| Extstore.UnlinkPage | p1a/memcached-1.6.17/extstore.c:862-876 | The walk removes the first occurrence of the page |
| Extstore.Engine.StartMaint | p1a/memcached-1.6.17/extstore.c:924-933 | Decides to evict exactly if no default page is free |
| Extstore.Engine.ScanPage | p1a/memcached-1.6.17/extstore.c:935-961 | Looks at one page: remembers the oldest, frees what is empty or closed and unreferenced |
| Extstore.Engine.EvictOldest | p1a/memcached-1.6.17/extstore.c:963-981 | Closes the remembered page, and frees it if nobody reads it |
| HashTable.FindRefines | p1a/memcached-1.6.17/assoc.c:70-95 | A lookup finds exactly what the map holds |
| HashTable.InsertRefines | p1a/memcached-1.6.17/assoc.c:149-166 | Insertion adds one entry to the map |
| HashTable.DeleteRefines | p1a/memcached-1.6.17/assoc.c:168-185 | Deletion removes one key from the map |
| HashTable.ExpandRefines | p1a/memcached-1.6.17/assoc.c:118-137 | Starting an expansion, with memory or without, leaves the map as it is |
| HashTable.MigrateRefines | p1a/memcached-1.6.17/assoc.c:211-233 | Migrating one bucket leaves the map as it is |
| HashTable.OneChain | p1a/memcached-1.6.17/assoc.c:70-95 | No entry is in two chains |
| HashTable.BucketOfBucket | p1a/memcached-1.6.17/assoc.c:205-210 | The low bits of a bucket number are the bucket number for fewer bits |
| HashLocks.TableIsAMap | p1a/memcached-1.6.17/assoc.c:70-185 | After any run of inserts, deletes, expansions, migrations and iterations a lookup answers as the map says |
| HashLocks.RunInv | p1a/memcached-1.6.17/assoc.c:193-257 | Every run keeps the tables a map and the iterator sound |
| HashLocks.ChainUnderOneLock | p1a/memcached-1.6.17/thread.c:121-131 | Hash values that share a chain share an item lock |
| HashLocks.MigrationUnderOneLock | p1a/memcached-1.6.17/assoc.c:205-216 | Every item of the migrated bucket has the lock of the bucket number, and goes to that bucket or the one half a table up |
| HashLocks.MigrateLeavesOthers | p1a/memcached-1.6.17/assoc.c:211-233 | A migration under another lock changes neither route nor chain of a held hash value |
| HashLocks.HeldLockFreezesRoute | p1a/memcached-1.6.17/assoc.c:74-80 | While a thread holds its item lock, its old-or-new decision and its chain do not change, whatever the other threads do |
| HashLocks.IterationVisitsOnce | p1a/memcached-1.6.17/assoc.c:299-359 | An item that stays in the table during an iteration is returned exactly once |
| HashLocks.NoExpansionWhileIterating | p1a/memcached-1.6.17/assoc.c:299-307 | While an iterator is held the table is not expanding |
| HashLocks.AdvanceKeepsIter | p1a/memcached-1.6.17/assoc.c:309-351 | Each call of assoc_iterate keeps what was returned free of repetition and behind the cursor |
| Assoc.Table.constructor | p1a/memcached-1.6.17/assoc.c:55-68 | An empty table with NULL heads |
| Assoc.Table.SetKey | p1a/memcached-1.6.17/items.c:341 | Writing the key of an item that is not in the table changes no chain |
| Assoc.Table.Where | p1a/memcached-1.6.17/assoc.c:74-80 | Chooses the old table exactly for buckets at or past the cursor |
| Assoc.Table.Find | p1a/memcached-1.6.17/assoc.c:70-95 | Returns the address of the key's item, or NULL |
| Assoc.Table.Walk | p1a/memcached-1.6.17/assoc.c:99-114 | Finds the first item with the key and the one before it |
| Assoc.Table.Insert | p1a/memcached-1.6.17/assoc.c:149-166 | The pointer writes put the item at the head of its chain |
| Assoc.Table.Delete | p1a/memcached-1.6.17/assoc.c:168-185 | The pointer writes unchain exactly the key's item |
| Assoc.Table.Rewrite | p1a/memcached-1.6.17/assoc.c:174-181 | Clears the item's link and redirects the pointer to it |
| Assoc.Table.StartExpansion | p1a/memcached-1.6.17/assoc.c:118-137 | The table twice the size starts empty, the old one becomes the source of migration |
| Assoc.Table.MoveBucket | p1a/memcached-1.6.17/assoc.c:212-217 | Every item of the bucket is relinked at the head of its new chain |
| Assoc.Table.MigrateBucket | p1a/memcached-1.6.17/assoc.c:211-233 | One bucket moves, and expansion ends with the last |
| Assoc.LinkedWithout | p1a/memcached-1.6.17/assoc.c:174-181 | Unchaining one item leaves the rest of the chain linked |
| Assoc.InsertCorrect | p1a/memcached-1.6.17/assoc.c:149-166 | The memory after insertion spells out the new table |
| Assoc.DeleteCorrect | p1a/memcached-1.6.17/assoc.c:168-185 | The memory after deletion spells out the new table |
| Assoc.MovedLinks | p1a/memcached-1.6.17/assoc.c:213-216 | Relinking one item of a bucket keeps every chain spelled out |
| LruList.DllLinkHead | p1a/memcached-1.6.17/items.c:421-446 | Linking at the head keeps a doubly linked list |
| LruList.DllLinkTail | p1a/memcached-1.6.17/items.c:1753-1772 | Linking at the tail keeps a doubly linked list |
| LruList.DllUnlink | p1a/memcached-1.6.17/items.c:461-491 | Unlinking removes exactly that position |
| LruList.DllCrawl | p1a/memcached-1.6.17/items.c:1797-1849 | A crawl step swaps the crawler with the item before it, at either end or in the middle |
| LruList.DllCrawlEnd | p1a/memcached-1.6.17/items.c:1805-1813 | At the head the crawl step and the unlink together remove the crawler |
| LruList.CrawlAssertsHold | p1a/memcached-1.6.17/items.c:1797-1849 | The assertions of do_item_crawl_q hold in every list |
| LruList.LinkAssertsHold | p1a/memcached-1.6.17/items.c:427-428 | The assertions of the two link routines hold for an item in no list |
| LruList.UnlinkAssertsHold | p1a/memcached-1.6.17/items.c:466-475 | The assertions of the two unlink routines hold at every position |
| LruState.LinkQOk | p1a/memcached-1.6.17/items.c:421-446 | Linking keeps every class list and its count and bytes |
| LruState.UnlinkQOk | p1a/memcached-1.6.17/items.c:461-491 | Unlinking keeps every class list and its count and bytes |
| LruState.CrawlerSteps | p1a/memcached-1.6.17/items.c:1824-1848 | Crawling changes neither counts nor bytes nor other lists |
| LruState.CrawlerEnds | p1a/memcached-1.6.17/items.c:1805-1813 | Nor does the end of a crawl |
| LruWorld.DropOk | p1a/memcached-1.6.17/items.c:552-561 | An item is freed exactly when the last holder of an unlinked item lets go, and the assertions of item_free hold |
| LruWorld.DetachOk | p1a/memcached-1.6.17/items.c:461-491 | Taking an item off its list meets the assertions and keeps lists, sizes, flags and counts, those in transit told apart |
| LruWorld.AttachOk | p1a/memcached-1.6.17/items.c:421-446 | Putting it on the list of its class does so too |
| LruWorld.SetLinkedOk | p1a/memcached-1.6.17/items.c:501-503 | Setting the flag puts an unlinked item in transit |
| LruWorld.ClearLinkedOk | p1a/memcached-1.6.17/items.c:523-524 | Clearing it does so with a linked one, whose reference passes to the caller |
| LruWorld.NewItemOk | p1a/memcached-1.6.17/items.c:319-360 | A new item with one holder disturbs nothing |
| LruCrawl.CrawledOk | p1a/memcached-1.6.17/items.c:1797-1849 | Every crawl step meets the assertions, returns NULL at the head and else an item of the class, linked unless in transit, and keeps lists, flags and counts, whether the crawler stays or leaves |
| LruCrawl.JoinedOk | p1a/memcached-1.6.17/items.c:1753-1772 | A crawler joins at the tail of any list without it, with the assertions, and the size of the list is its length then |
| LruCrawl.MayLeave | p1a/memcached-1.6.17/items.c:1774-1793 | The assertions of do_item_unlinktail_q hold after every crawl step |
| LruRuns.StepInv | p1a/memcached-1.6.17/items.c:421-590 | Each thread's step under one lock keeps lists, sizes, flags and counts, for every set of operations in progress |
| LruRuns.RunInv | p1a/memcached-1.6.17/items.c:421-590 | So does every interleaving of such steps |
| LruRuns.ReachableInv | p1a/memcached-1.6.17/items.c:55-60 | And it holds from the empty cache on |
| LruRuns.CanGoOn | p1a/memcached-1.6.17/items.c:499-550 | An operation in progress finds the assertions of its next step met, whatever other threads have done since its last one |
| LruRuns.OthersKeepStage | p1a/memcached-1.6.17/items.c:499-590 | Steps on other items leave an operation in progress where it is |
| LruRuns.OthersKeepItem | p1a/memcached-1.6.17/items.c:499-590 | And leave its item's record, references and pending bumps |
| LruRuns.UnlinkEffect | p1a/memcached-1.6.17/items.c:521-534 | do_item_unlink on an item that is held: unlinked, off its list, the list's reference gone, nothing else changed |
| LruRuns.MovedFacts | p1a/memcached-1.6.17/items.c:570-576 | A move: off one list, head of another of the same slab class, the same references |
| Lru.CrawlList | p1a/memcached-1.6.17/items.c:1797-1849 | The pointer writes of a crawl step, one by one |
| Lru.Cache.constructor | p1a/memcached-1.6.17/items.c:55-60 | Empty lists; the start of all runs |
| Lru.Cache.LinkPointers | p1a/memcached-1.6.17/items.c:434-440 | The pointer writes at the head |
| Lru.Cache.UnlinkPointers | p1a/memcached-1.6.17/items.c:468-482 | The pointer writes of an unlink |
| Lru.Cache.LinkTailPointers | p1a/memcached-1.6.17/items.c:1763-1771 | The pointer writes at the tail |
| Lru.Cache.LinkQ | p1a/memcached-1.6.17/items.c:421-446 | With its assertions; the item becomes the head and the sizes grow by it |
| Lru.Cache.UnlinkQ | p1a/memcached-1.6.17/items.c:461-491 | With its assertions; the item leaves and the sizes shrink by it |
| Lru.Cache.Alloc | p1a/memcached-1.6.17/items.c:319-360 | Takes the machine's allocation step |
| Lru.Cache.Remove | p1a/memcached-1.6.17/items.c:552-561 | Takes the step of a holder that lets go |
| Lru.Cache.LinkFlag | p1a/memcached-1.6.17/items.c:501-503 | The first step of do_item_link |
| Lru.Cache.LinkList | p1a/memcached-1.6.17/items.c:448-452 | The second, under the list lock |
| Lru.Cache.LinkCount | p1a/memcached-1.6.17/items.c:515-515 | The third |
| Lru.Cache.UnlinkFlag | p1a/memcached-1.6.17/items.c:523-524 | The first step of do_item_unlink |
| Lru.Cache.UnlinkList | p1a/memcached-1.6.17/items.c:493-497 | The second, under the list lock |
| Lru.Cache.UnlinkDrop | p1a/memcached-1.6.17/items.c:532-532 | The third |
| Lru.Cache.MoveOff | p1a/memcached-1.6.17/items.c:572-572 | The first half of a move |
| Lru.Cache.MoveOn | p1a/memcached-1.6.17/items.c:573-576 | The second half, on the list of the new class |
| Lru.Cache.Link | p1a/memcached-1.6.17/items.c:499-519 | Flag, list and count in this order |
| Lru.Cache.UnlinkItem | p1a/memcached-1.6.17/items.c:521-550 | Flag, list and reference in this order, nothing for an unlinked item |
| Lru.Cache.Update | p1a/memcached-1.6.17/items.c:563-590 | In segmented mode exactly an active COLD item moves to WARM and loses the flag; else an item moves to the head exactly after the interval; others get the time or nothing |
| LruPull.DoAct | p1a/memcached-1.6.17/items.c:1141-1257 | An item whose lock was taken is reclaimed if dead, and else put back, sent, evicted or left, by exactly the steps of that act |
| LruPull.DoWarm | p1a/memcached-1.6.17/items.c:1182-1216 | The HOT and WARM cases |
| LruPull.DoCold | p1a/memcached-1.6.17/items.c:1217-1253 | The COLD case |
| LruPull.ReclaimEffect | p1a/memcached-1.6.17/items.c:1160-1176 | A reclaimed item is off its list, and freed unless somebody holds it |
| LruPull.RequeueEffect | p1a/memcached-1.6.17/items.c:1191-1196 | An item put back is inactive at the head of its list, with the same references |
| LruPull.SendEffect | p1a/memcached-1.6.17/items.c:1197-1272 | An item sent is inactive at the head of the other list, with its references, one more if the call keeps its own |
| LruPull.EvictEffect | p1a/memcached-1.6.17/items.c:1219-1240 | An evicted item is off its list, and freed unless somebody holds it or the call keeps its reference |
| LruWalk.ItemsPulled | p1a/memcached-1.6.17/items.c:1103-1277 | Every item is untouched, or reclaimed and dead, or put back and was active in WARM, or the one that the walk stopped at, with what was done to it and why; all of those were linked in this list and their locks taken |
| LruWalk.ListsPulled | p1a/memcached-1.6.17/items.c:1103-1277 | The other lists only get the item sent to them, as head; in its own list all that was not acted on, crawlers included, keeps its order behind what was put back |
| LruWalk.StopChoice | p1a/memcached-1.6.17/items.c:1122-1139 | The item stopped at, and so the only one evicted, is the first from the tail that is not locked, dead, or active in WARM, or one that the walk put back itself |
| LruWalk.StopsIff | p1a/memcached-1.6.17/items.c:1122-1260 | The list before the call tells exactly whether the walk stops at an item |
| LruWalk.CountsRemoved | p1a/memcached-1.6.17/items.c:1172-1251 | The count is that of the items reclaimed, put back, sent or evicted, and at most 5 |
| LruWalk.HiddenChange | p1a/memcached-1.6.17/items.c:1127-1130 | The call returns 0 after removing something exactly when the flag is set and the list before the call has a crawler that the walk gets to past an item whose lock it gets |
| LruWalk.LeakIff | p1a/memcached-1.6.17/items.c:1264-1274 | A reference is left with nobody exactly for LRU_PULL_RETURN_ITEM outside COLD or with LRU_PULL_EVICT, when the walk stops at an item |
| LruWalk.AdvanceSofar | p1a/memcached-1.6.17/items.c:1123-1176 | Each turn of the loop keeps what is known of items, lists, places and tries, and goes one member down the list before the call |
| LruTail.PullWalk | p1a/memcached-1.6.17/items.c:1120-1262 | The part under the list lock is the walk, over the pointers |
| LruTail.PullFinish | p1a/memcached-1.6.17/items.c:1264-1274 | The part after it relinks and releases the item stopped at |
| LruTail.PullTail | p1a/memcached-1.6.17/items.c:1103-1277 | The two together, the number and the item that are returned |
| LruTail.OthersLeave | p1a/memcached-1.6.17/items.c:1262-1268 | What the second part relies on survives the other threads' steps on other items |
| LruTail.PullIsRun | p1a/memcached-1.6.17/items.c:1103-1277 | For the other threads a call is a run of steps on items whose locks it has; crawlers and bump buffers are left alone |
| LruWitness.BlockedWitness | p1a/memcached-1.6.17/items.c:1127-1130 | A reachable cache with the list [crawler, expired item], on which a call returns 0 after reclaiming |
| LruWitness.FindsWitness | p1a/memcached-1.6.17/items.c:1264-1274 | For all flags a reachable cache in which the walk stops, and so leaks with those flags |
| LruBump.Bumps.BumpAsync | p1a/memcached-1.6.17/items.c:1312-1333 | A bump is queued with a reference of its own, or both are taken back |
| LruBump.Bumps.Hit | p1a/memcached-1.6.17/items.c:1062-1087 | The first hit marks the item fetched, the second active; only a COLD item is queued with the second, and a full queue leaves it as it was; without segments the item is updated |
| LruBump.Bumps.Peek | p1a/memcached-1.6.17/items.c:1349-1351 | What can be seen at once, nothing only if the buffer is empty |
| LruBump.Bumps.ApplyOne | p1a/memcached-1.6.17/items.c:1360-1363 | The next entry is updated and given back, and stays in the buffer |
| LruBump.Bumps.Poll | p1a/memcached-1.6.17/items.c:1368-1370 | Exactly the applied entries leave the buffer |
| LruBump.Bumps.Maintain | p1a/memcached-1.6.17/items.c:1341-1374 | The entries seen are applied one after the other and polled |
| LruBump.BumpsMeaning | p1a/memcached-1.6.17/items.c:1341-1374 | Every entry gives back one reference; a linked item gets the time; exactly those active in COLD are at the head of WARM, inactive, the last one bumped first; an unlinked item is freed with its last reference |
| LruBump.UpdateEffect | p1a/memcached-1.6.17/items.c:563-590 | What do_item_update makes of its item and the lists, in both modes |
| LruBump.KeepsPending | p1a/memcached-1.6.17/items.c:1353-1366 | Whatever other threads do between peek and poll, the entries not yet applied stay |
| LruBump.QueuedOncePerClear | p1a/memcached-1.6.17/items.c:1074-1081 | Between two entries of an item its ITEM_ACTIVE was cleared, so while it stays active it is queued at most once |
| Crawler.CrawlKeepsItems | p1a/memcached-1.6.17/items.c:1797-1849 | A crawl step, the last one included, keeps the sequence of real items |
| Crawler.CrawlVisitsOnce | p1a/memcached-1.6.17/crawler.c:444-451 | An item that is not unlinked during the crawl is returned exactly once by the time the head is reached, whatever else is linked and unlinked |
| Crawler.CrawlExamines | p1a/memcached-1.6.17/crawler.c:599-607 | A crawl started for n items examines at most n |
| Crawler.StartFacts | p1a/memcached-1.6.17/crawler.c:582-618 | A crawl starts with every item of the list ahead of it |
| Crawler.RunTracks | p1a/memcached-1.6.17/crawler.c:408-460 | At every moment of a run an item is ahead and not returned, or behind and returned once |
| LruCrawler.StepShadow | p1a/memcached-1.6.17/items.c:421-590 | Every step of every thread is at most one step of the crawl machine of a class: links, unlinks, both halves of moves, crawl turns, and the end of a crawl whose client is gone |
| LruCrawler.RunShadow | p1a/memcached-1.6.17/items.c:421-590 | A run of the LRU, seen from a class, is a run of its crawl machine, with an unlink of an item only where the LRU has one |
| LruCrawler.CrawlInRun | p1a/memcached-1.6.17/crawler.c:444-451 | While the whole cache runs, an item that is not unlinked or moved during the crawl of its list is returned exactly once by the time the head is reached, unless the client of the crawl goes away |
| LruCrawler.CrawlInRunExamines | p1a/memcached-1.6.17/crawler.c:599-607 | While the whole cache runs, a crawl with a limit of n examines at most n items |
| LruCrawler.QuietRun | p1a/memcached-1.6.17/items.c:421-590 | Operations on items leave every crawler's record alone |
| LruCrawler.Crawlers.constructor | p1a/memcached-1.6.17/crawler.c:582-618 | No crawler is in a list |
| LruCrawler.Crawlers.Start | p1a/memcached-1.6.17/crawler.c:582-618 | Starting a crawler is the machine's start, on the lists in place, or nothing if it runs |
| LruCrawler.Crawlers.Step | p1a/memcached-1.6.17/crawler.c:444-451 | A turn of the thread is the machine's crawl step, pointer writes and countdown included |
| LruCrawler.Crawlers.Quit | p1a/memcached-1.6.17/crawler.c:341-350 | A crawl whose client is gone: the crawler is off its list and not enabled, as the machine's step says |
| LruRuns.CrawlQuitInv | p1a/memcached-1.6.17/crawler.c:436-443 | A crawler that leaves without a crawl turn, in one step, keeps the invariant |
| LruQuit.QuitUnlocked | p1a/memcached-1.6.17/crawler.c:436-443 | Without the list lock: however the four statements are spread over steps of other threads that leave the list of the class alone, the run and its end are those of leaving in one step |
| LruQuit.StepApart | p1a/memcached-1.6.17/items.c:421-590 | Every step outside the class is possible, and does the same, whatever statements of a leaving crawler have been carried out |
| LruRace.RaceIff | p1a/memcached-1.6.17/items.c:1774-1793 | For every list, place of the crawler, link or unlink of another thread and moment between two statements: the list is what both together should give exactly unless they clash |
| LruRace.NeighbourIff | p1a/memcached-1.6.17/items.c:1774-1793 | The same for an unlink next to the crawler, from the pointers around the two |
| LruRace.FarIsSafe | p1a/memcached-1.6.17/items.c:1774-1793 | An unlink elsewhere in the list commutes with every statement |
| LruRace.AloneIsUnlink | p1a/memcached-1.6.17/items.c:1774-1793 | Without another thread the four statements are the unlink |
| LruWitness.RaceWitness | p1a/memcached-1.6.17/crawler.c:436-443 | A reachable list on which an unlink after the first statement leaves pointers that spell no list |
| LruCrawler.Crawlers.Undisturbed | p1a/memcached-1.6.17/items.c:421-590 | Every method of the cache, of the bumps and of the pull leaves the crawlers' fields right |
| RespBundle.Thread.constructor | p1a/memcached-1.6.17/memcached.c:1061-1064 | A thread starts without bundles |
| RespBundle.Thread.Allocate | p1a/memcached-1.6.17/memcached.c:1061-1117 | The slot handed out was free, no other slot changes, the assertions hold; there is no slot only if all were in use and memory is out |
| RespBundle.Thread.Free | p1a/memcached-1.6.17/memcached.c:1119-1163 | The slot is free again and no other changes; the assertions hold; at most one bundle is wholly empty |
| RespBundle.FindFree | p1a/memcached-1.6.17/memcached.c:1067-1075 | The search from next_check finds a free slot whenever there is one |
| RespBundle.TakeSlotOk | p1a/memcached-1.6.17/memcached.c:1077-1091 | A full bundle leaves the open list and only then |
| RespBundle.NewBundleOk | p1a/memcached-1.6.17/memcached.c:1093-1110 | A new bundle is the whole open list |
| RespBundle.FreeSlotOk | p1a/memcached-1.6.17/memcached.c:1119-1163 | The open list stays exactly the bundles with a free slot, counts stay right, and an empty bundle is the last |
| RespBundle.PointersShow | p1a/memcached-1.6.17/memcached.c:1150-1161 | A bundle is in the list exactly if it is the head or has a neighbour |
| Transmit.Conn.Queue | p1a/memcached-1.6.17/memcached.c:1165-1199 | A queued response extends the stream by its bytes |
| Transmit.Conn.TransmitPre | p1a/memcached-1.6.17/memcached.c:2592-2655 | What is gathered is a prefix of the stream within IOV_MAX - 1 entries, and nothing only if nothing is left |
| Transmit.Conn.TransmitPost | p1a/memcached-1.6.17/memcached.c:2661-2709 | Exactly the bytes taken are struck from the front of the stream |
| Transmit.Conn.Transmit | p1a/memcached-1.6.17/memcached.c:2720-2773 | Bytes sent and bytes left are together what was queued, under every short write; complete means all was sent |
| Transmit.GatherChunks | p1a/memcached-1.6.17/memcached.c:2609-2633 | Chunks are resumed at the right chunk and offset |
| Transmit.GatherResp | p1a/memcached-1.6.17/memcached.c:2601-2642 | The iovs of a response with chunks, in order, up to the limit |
| Transmit.Strike | p1a/memcached-1.6.17/memcached.c:2679-2708 | A partly sent response keeps exactly its unsent bytes, and tosend is their number |
| Transmit.AddIov | p1a/memcached-1.6.17/memcached.c:1038-1045 | An iov adds its bytes at the end of the response |
| Transmit.AddChunkedIov | p1a/memcached-1.6.17/memcached.c:1050-1054 | A chunked item adds its bytes, none of them sent |
| Gf2.MatrixTimes | p1a/memcached-1.6.17/crc32c.c:61-70 | The loop computes the product of a matrix and a vector over GF(2) |
| Gf2.MatrixSquare | p1a/memcached-1.6.17/crc32c.c:74-77 | The result is the matrix composed with itself |
| Gf2.TimesLinear | p1a/memcached-1.6.17/crc32c.c:61-70 | Multiplication by a matrix is linear |
| Gf2.ComposeTimes | p1a/memcached-1.6.17/crc32c.c:74-77 | Composition multiplies like applying one after the other |
| Crc32c.ZeroBitsLinear | p1a/memcached-1.6.17/crc32c.c:84-116 | Appending zero bits is linear in the register |
| Crc32c.CrcChunks | p1a/memcached-1.6.17/crc32c.h:11-14 | Feeding a buffer in chunks gives the CRC of the whole |
| Crc32c.UpdateApart | p1a/memcached-1.6.17/crc32c.c:183-219 | The CRC of a concatenation is the shifted first CRC xor the second from zero |
| Crc32cHw.ZerosOp | p1a/memcached-1.6.17/crc32c.c:84-116 | For every length the result is the operator that appends 8 times the largest power of two up to it zero bits |
| Crc32cHw.FloorPow2Bounds | p1a/memcached-1.6.17/crc32c.c:84-116 | Which power of two that is; for a power of two, the length itself |
| Crc32cHw.Zeros | p1a/memcached-1.6.17/crc32c.c:120-130 | The four tables compute that operator byte by byte |
| Crc32cHw.ShiftIsZeroBits | p1a/memcached-1.6.17/crc32c.c:133-136 | A shift by the tables appends the zero bits |
| Crc32cHw.InitHw | p1a/memcached-1.6.17/crc32c.c:154-157 | Both tables are for their block sizes |
| Crc32cHw.ThreeWay | p1a/memcached-1.6.17/crc32c.c:183-219 | Three CRCs in parallel, shifted and combined, are the CRC of the three blocks |
| Crc32cHw.Hw | p1a/memcached-1.6.17/crc32c.c:160-244 | Equals the bit-at-a-time CRC for every buffer, length and alignment |
| Crc32cSw.SlicingUpdates | p1a/memcached-1.6.17/crc32c.c:401-415 | Eight bytes at once are eight byte steps |
| Crc32cSw.InitLittle | p1a/memcached-1.6.17/crc32c.c:368-388 | The little-endian tables hold each byte's effect at each position |
| Crc32cSw.Little | p1a/memcached-1.6.17/crc32c.c:392-423 | Equals the bit-at-a-time CRC for every buffer and alignment |
| Crc32cSw.InitBig | p1a/memcached-1.6.17/crc32c.c:441-462 | The big-endian tables are the swapped ones |
| Crc32cSw.BigStep | p1a/memcached-1.6.17/crc32c.c:476-489 | A slicing step in swapped registers is eight byte steps |
| Crc32cSw.Big | p1a/memcached-1.6.17/crc32c.c:466-497 | Equals the bit-at-a-time CRC for every buffer and alignment |
| StableSort.StableSortUnique | p3a/psort.c:95-145 | A list has only one stable sort |
| StableSort.MergeSorted | p3a/psort.c:95-145 | Merging sorted lists gives a sorted list |
| StableSort.MergeStable | p3a/psort.c:95-145 | Merging keeps the order of equal keys, the left list first |
| StableSort.SameByKeyIsPermutation | p3a/psort.c:95-145 | Keeping the records of each key in order is a permutation |
| ParallelSort.Sorter.Merge | p3a/psort.c:95-145 | Merges two neighbouring stretches in place and nothing else |
| ParallelSort.Sorter.MergeBoth | p3a/psort.c:107-113 | The loop while both copies have records left |
| ParallelSort.Sorter.Drain | p3a/psort.c:114-119 | The loops that write back the rest |
| ParallelSort.Sorter.MergeSort | p3a/psort.c:147-154 | Sorts a stretch stably in place |
| ParallelSort.Sorter.ThreadMergeSort | p3a/psort.c:182-187 | A thread sorts exactly its share, the last one the remainder too |
| ParallelSort.Sorter.ThreadMerge | p3a/psort.c:189-203 | A thread merges exactly its pair of runs, ragged last run included |
| ParallelSort.Sorter.SortShares | p3a/psort.c:206-225 | After the first phase every run is sorted, in whatever order whole threads ran |
| ParallelSort.Sorter.MergeRound | p3a/psort.c:233-257 | A round merges all pairs, in whatever order of whole threads, and carries an odd run over |
| ParallelSort.Sorter.MergeRounds | p3a/psort.c:233-258 | The rounds end with one sorted run, and the run size stays within four times the number of records |
| ParallelSort.Sorter.MultithreadSort | p3a/psort.c:206-261 | The array is the stable sort of the input for every number of threads and every order of whole threads |
| PsortThreads.AnyInterleavingSorts | p3a/psort.c:206-261 | The array is the stable sort of the input for every number of threads and every interleaving of their reads and writes within a phase |
| PsortThreads.SharesSorted | p3a/psort.c:206-225 | The first phase under every interleaving: sorted runs, stably |
| PsortThreads.RoundSorted | p3a/psort.c:233-257 | A merge round under every interleaving: sorted runs twice as long, stably, the odd run untouched |
| PsortThreads.RunIsAlone | p3a/psort.c:182-203 | Whatever the order of turns, each thread has done to its stretch what it does alone |
| PsortThreads.TurnWritesOne | p3a/psort.c:107-119 | A turn writes one record of its own stretch at most |
| PsortThreads.SortRuns | p3a/psort.c:147-154 | mergeSort access by access, alone, returns with its range stably sorted and nothing else changed |
| PsortThreads.MergeRuns | p3a/psort.c:95-119 | merge access by access, alone, returns with its two runs merged and nothing else changed |
| PsortThreads.PhaseEnds | p3a/psort.c:214-222 | Every phase comes to its end in some order of turns |
| ParallelSort.PairBounds | p3a/psort.c:189-203 | The stretches of different threads do not overlap |
| ParallelSort.NextRound | p3a/psort.c:233-258 | The merged runs are the runs of the next round |
| ParallelSort.OutcomeIsUnique | p3a/psort.c:206-261 | Two schedules give the same array |
| BipBuffer.Buffer.constructor | p1a/memcached-1.6.17/bipbuffer.c:42-47 | An empty buffer |
| BipBuffer.Buffer.Unused | p1a/memcached-1.6.17/bipbuffer.c:23-30 | What is reported free is really free |
| BipBuffer.Buffer.Request | p1a/memcached-1.6.17/bipbuffer.c:77-89 | The place handed out holds no byte of the queue |
| BipBuffer.Buffer.Push | p1a/memcached-1.6.17/bipbuffer.c:91-107 | The bytes in place join the end of the queue; peeked bytes stay |
| BipBuffer.Buffer.Offer | p1a/memcached-1.6.17/bipbuffer.c:109-128 | The bytes join the end of the queue, or nothing changes |
| BipBuffer.Buffer.PeekAll | p1a/memcached-1.6.17/bipbuffer.c:142-149 | All of region A in place, nothing only if the queue is empty |
| BipBuffer.Buffer.Poll | p1a/memcached-1.6.17/bipbuffer.c:151-180 | The first bytes leave the queue, and are those that were peeked |
| BipBuffer.Buffer.CheckForSwitchToB | p1a/memcached-1.6.17/bipbuffer.c:70-74 | Switching regions moves no byte |
| Md5.Context.constructor | p1a/memcached-1.6.17/md5.c:312-319 | The starting registers of section 3.3 of RFC 1321 |
| Md5.Context.Append | p1a/memcached-1.6.17/md5.c:322-357 | Registers, count and buffer are those of the concatenation of all appended bytes |
| Md5.Context.FillBlock | p1a/memcached-1.6.17/md5.c:339-349 | The initial partial block |
| Md5.Context.AppendBlocks | p1a/memcached-1.6.17/md5.c:351-357 | The full blocks and the final partial one |
| Md5.Context.UpdateCount | p1a/memcached-1.6.17/md5.c:333-337 | The count in two words, with carry |
| Md5.CountedIs | p1a/memcached-1.6.17/md5.c:333-337 | The two words hold the number of bits modulo 2^64 |
| Md5.Context.Finish | p1a/memcached-1.6.17/md5.c:360-381 | The digest is the fold of the block function over the message padded as in sections 3.1 and 3.2 of RFC 1321 |
| Md5.DigestOfPieces | p1a/memcached-1.6.17/md5.c:322-381 | Every split of a message into appends gives that digest |
| Base64.RoundTrip | p1a/memcached-1.6.17/base64.c:93-205 | Decoding an encoding gives the bytes back exactly when there is room for whole blocks |
| Base64.EncodeInto | p1a/memcached-1.6.17/base64.c:93-139 | Writes the encoding and its terminator within the room given, or nothing |
| Base64.DecodeInto | p1a/memcached-1.6.17/base64.c:150-205 | The decoded bytes within the room given, also when the output is the source |
| Base64.DecodeBlocks | p1a/memcached-1.6.17/base64.c:174-202 | Decoding in place never overtakes reading |
| Itoa.NumeralIsCanonical | p1a/memcached-1.6.17/itoa_ljust.c:109-149 | A numeral says its number, without leading zeros |
| Itoa.Itoa | p1a/memcached-1.6.17/itoa_ljust.c:92-107 | The switch prints the remaining digits from any case it is entered at |
| Itoa.Digits | p1a/memcached-1.6.17/itoa_ljust.c:83-90 | One digit first if their number is odd |
| Itoa.ItoaU32 | p1a/memcached-1.6.17/itoa_ljust.c:109-117 | The text is the numeral and the pointer is at the terminator |
| Itoa.ItoaU64 | p1a/memcached-1.6.17/itoa_ljust.c:128-140 | The same for 64 bits, by splitting off nine digits |
| Itoa.Itoa32 | p1a/memcached-1.6.17/itoa_ljust.c:119-126 | Sign and numeral for every value, the minimum included |
| Itoa.Itoa64 | p1a/memcached-1.6.17/itoa_ljust.c:142-149 | Sign and numeral for every value, the minimum included |
| Itoa.TwentyAreEnough | p1a/memcached-1.6.17/itoa_ljust.c:128-149 | No number needs more than 20 characters |
| Jenkins.JenkinsHash | p1a/memcached-1.6.17/jenkins_hash.c:125-297 | For keys anywhere in memory the value is that of the key's bytes, whichever path is taken |
| Jenkins.HashWords | p1a/memcached-1.6.17/jenkins_hash.c:137-181 | The path with 32-bit reads, the masked reads past the end of the key included |
| Jenkins.HashHalves | p1a/memcached-1.6.17/jenkins_hash.c:205-251 | The path with 16-bit reads |
| Jenkins.HashBytes | p1a/memcached-1.6.17/jenkins_hash.c:252-293 | The path with single bytes |
| Jenkins.LastWords | p1a/memcached-1.6.17/jenkins_hash.c:166-181 | Each case adds the last bytes as if zeros followed them |
| Jenkins.LastHalves | p1a/memcached-1.6.17/jenkins_hash.c:222-250 | The same from halves and bytes |
| Jenkins.AddFrom | p1a/memcached-1.6.17/jenkins_hash.c:276-292 | The cases that fall through add the same number |
| Jenkins.MixReversible | p1a/memcached-1.6.17/jenkins_hash.c:79-87 | mix has an inverse, on both sides |
| Jenkins.NoCollisionInside | p1a/memcached-1.6.17/jenkins_hash.c:37-87 | Keys that differ in one block before the last reach the last block in different states |
| Jenkins.StatesStayApart | p1a/memcached-1.6.17/jenkins_hash.c:37-87 | Different states stay different whatever blocks follow |
| Tokens.Tokenize | p1a/memcached-1.6.17/proto_text.c:283-324 | At most max - 1 nonempty, terminated tokens in place; their texts and the words of the rest are the words of the line; there is a rest only after a full batch |
| Tokens.WordsOfJoined | p1a/memcached-1.6.17/proto_text.c:283-307 | Words joined by spaces are the words of the line |
| Tokens.WordsAreWords | p1a/memcached-1.6.17/proto_text.c:283-307 | Every word is nonempty and holds no space |
| Tokens.Scan | p1a/memcached-1.6.17/proto_text.c:290-307 | The words found and those to come are always the words of the line |
| Tokens.AllBatches | p1a/memcached-1.6.17/proto_text.c:561-683 | The batches together are the words of the whole line |
| Delta.Multiply | p1a/memcached-1.6.17/memcached.c:2289-2298 | The product modulo 2^64 |
| Delta.Divide | p1a/memcached-1.6.17/memcached.c:2299-2314 | Counts the running sums, modulo 2^64, before the first that exceeds the value |
| Delta.EndsIff | p1a/memcached-1.6.17/memcached.c:2308-2312 | The loop ends exactly if the value is below 2^64 less the largest power of two that divides delta |
| Delta.QuotientIff | p1a/memcached-1.6.17/memcached.c:2308-2312 | When it ends, the count is the quotient exactly if the first multiple of delta above the value is below 2^64 |
| Delta.CountFits | p1a/memcached-1.6.17/memcached.c:2308-2312 | The count never reaches 2^64 |
| Delta.DivideWitness | p1a/memcached-1.6.17/memcached.c:2308-2312 | For 2^64 - 1 and 2 the loop never ends; for 2^64 - 2 and 7 it ends with another number than the quotient |
| Delta.Apply | p1a/memcached-1.6.17/memcached.c:2272-2317 | incr wraps at 2^64, decr stops at 0, mult is the product for deltas below 2^63 and nothing above, div the count of the loop, or nothing for 0 |

## Left out

- `Extstore.Init`: files without any page, opening and locking the files, memory that runs out, and threads; free buckets are below the number of page buckets, as storage.c sets them.
- _allocate_page writes page fields under the engine lock alone while readers hold the page lock; the model allocates in one step.
- The IO queues: accepted reads and submitted writes are served in any order, which covers every order the queues and threads produce. _get_io_thread, queue depths and batch sizes are not modelled.
- Reads for offsets and lengths other than those of a written object, and objects of length 0.
- pread and pwrite are total and exact; extstore statistics and page data for the compactor are not modelled.
- Lists of pages (free lists, buckets) are sequences; their `next` links are not modelled one by one.
- The mutexes themselves, pause_threads, conditions and sleeps; each critical section is one step.
- When the hash table decides to grow (assoc_start_expand), and statistics.
- Item locks: an item in the middle of an operation is marked busy, which keeps other threads' steps from it; the lock table is not modelled. Steps between two operations that one thread makes under one item lock are separate operations.
- Tail repair, do_item_replace, slab memory and when it is exhausted, statistics, the 16-bit width of reference counts; times are integers and differences of them do not wrap.
- `LruTail.PullWalk`: item_trylock has one outcome for an item in a call, also if the walk meets it a second time after putting it back.
- `LruTail.PullTail`: the same as for PullWalk.
- `LruBump.Bumps`: the entries are a sequence; that a bip buffer keeps the bytes of entries in order is what BipBuffer shows.
- `LruBump.Bumps.Maintain`: one bump buffer; the entries of other buffers are among an item's other holders.
- `LruQuit.QuitUnlocked`: lru_crawler_class_done also releases the list lock that it does not hold; what that does to the mutex and to the thread that holds it is not modelled.
- `LruRace.RaceIff`: one link or unlink between two statements; sequences of them are covered by QuitUnlocked when they are in other classes.
- The item hash lock taken by the crawler after a crawl step, its modules, and crawls by hash table.
- UDP transmission, responses with pending storage IO, and which connection state follows a send.
- The crc32c instruction has its byte-step meaning; the AArch64 version and the choice between versions at startup are not modelled.
- Records of the sort are keys with payloads; mapping files and creating threads are not modelled. A turn of a thread reads or writes one record, or begins or ends a call.
- `Md5.Context.Append`: sums of `int` that exceed 2^31 - 1 (appends within 63 bytes of that size) are taken as unbounded.
- The rounds of MD5 are a parameter.
- `Itoa.Itoa`: the product d * 100000000 in case 9 is taken as unbounded; in C it wraps and is corrected by the unsigned subtraction.
- Bitwise or of disjoint bits is written as a sum, and shifts as multiplication and division, in Base64 and MD5.
- `Jenkins.JenkinsHash`: the big-endian version, and memory that does not consist of whole words; masks are written as remainders.
- process_get_command between the batches (key lengths, lookups, responses); the token array is a sequence, its closing token the returned position.
- do_add_delta around its arithmetic: lookup, the checks before it, storing the result.
- The proxy, logging, settings, SASL and TLS, warm restart, and the shell of p2a.
