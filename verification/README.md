# Verified model of two servers' data structures and a lock

A Dafny model of the stateful cores of this benchmark suite, with proofs:

- **The memcached 1.4.5 storage engine.** `Assoc` is the hash index that grows while in use, `Lru` the queue of
  each slab class, `Slabs` the allocator. `ItemState` says how flags, reference counts, queues, index, chunks,
  counters, times and ids must agree, and proves that each elementary step keeps it so. `Cache` has the operations
  of `items.c`; `Entries`, `Hiding` and `Commands` relate them and the storage commands to a plain map from keys to
  entries, of which a flush may hide some. `Server` runs arbitrary sequences of them and `Runs` says what holds of
  every run, `Losses` which entries a run can cost. `Numbers` is the text of counters and `Counters` the commands on them, `Lookup3` the hash function and
  `OutputQueue` a connection's pending output.
- **The Metis map-reduce store and scheduler.** `BSearch` and the `BTree*` modules are the B+tree, `Buckets` the
  rows of trees and their rehash, `TaskCount` the search for the number of reduce tasks, `Presplitter` the handing
  out of splits, `MergeSort` the strided merge and its rounds, and `WordCount` the splitter and map function.
- **The ticket spinlock** with its client loop: `TicketLock`.

`dafny verify dfyconfig.toml` checks everything.

## How the model is built

Pointers are numbers and item memory is a map per field, so that sharing and pointer updates are explicit. Classes
hold the fields the source updates; their ghost fields (the queue as a sequence, the chain of each bucket, the
entries of each message) are tied to the real ones by their invariants. Each operation under `cache_lock` is one
atomic step, and `Server.Serve` runs any sequence of such steps on references that connections hold in between, so
its conclusions hold for every interleaving. It records the state before each step and the answer of the step;
`Server.Did` says what a step means and the lemmas of `Runs` are about every run so recorded. Threads of the lock and
map workers take one memory access per step, in any order.

What `malloc` and `calloc` answer is a parameter of each operation. Whether an allocation fails is then determined,
and the contracts and the steps of a run say exactly when (`Commands.Starved`).

Three promises hold only under a condition, which is proved to be exact:

- The ticket lock excludes exactly up to 256 threads (`TicketLock.ExclusionIff`).
- The word splitter ends exactly when there are as many characters as splits or no separator at all
  (`WordCount.SplittingEndsIff`).
- A flush hides what was linked before it until a connection that got an item before the flush updates it
  afterwards and the update moves the item, because `do_item_update` does not look at `oldest_live`
  (`Runs.ReturnedIffResurfaced`). The update moves the item exactly if relative time is below 60 or the item was
  last used more than 60 seconds ago (`Commands.StaleIff`). `Runs.FlushedItemReturns` is such a run. It cannot
  happen when lookup and update of a get command run as one step (`Runs.ReadsRespectFlush`).

## Model

| member | source | states |
|---|---|---|
| BSearch.SearchLargest | metis/lib/bsearch.c:6-36 | the result is the number of keys not above the one searched for |
| BSearch.SearchEqual | metis/lib/bsearch.c:39-88 | found exactly when the key is there; the position splits the array into smaller and larger keys |
| BTree.BTree.SplitNode | metis/lib/keyvals_btree.c:36-44 | the upper half of a node moves to a new sibling, and nothing else changes |
| BTree.BTree.LinkRoot | metis/lib/keyvals_btree.c:58-68 | a new root over two siblings, with both parent pointers and one level more |
| BTree.BTree.LinkKid | metis/lib/keyvals_btree.c:76-85 | separator and right sibling go into the parent at their index, later ones shift by one |
| BTree.BTree.AddRoot | metis/lib/keyvals_btree.c:58-68 | growing a root turns a tree with a pending sibling into a well-formed tree |
| BTree.BTree.AddKid | metis/lib/keyvals_btree.c:69-85 | the binary search finds the place right after the left sibling; only the parent may now overflow |
| BTree.BTree.FixParents | metis/lib/keyvals_btree.c:91-93 | after the loop no node has a stale parent pointer |
| BTree.BTree.SplitUpward | metis/lib/keyvals_btree.c:86-94 | splitting an overfull inner node and going on one level up restores every invariant, with parent pointers stale meanwhile |
| BTree.BTree.InsertIndex | metis/lib/keyvals_btree.c:56-96 | the recursion ends with a well-formed tree and leaves all levels up to the split one as they were |
| BTree.BTree.GetLeaf | metis/lib/keyvals_btree.c:99-119 | the leaf whose key range covers the key; an empty tree gets its first leaf |
| BTree.BTree.InsertKey | metis/lib/keyvals_btree.c:122-136 | the key is the only addition to the contents, without values, and only its leaf may be over-full |
| BTree.BTree.HalveLeaf | metis/lib/keyvals_btree.c:139-145 | the upper half of a full leaf is in a new leaf and the contents are the same |
| BTree.BTree.SplitLeaf | metis/lib/keyvals_btree.c:139-150 | a full leaf is split without a change to the contents, and the tree and leaf chain are well formed again |
| BTree.BTree.LinkLeaf | metis/lib/keyvals_btree.c:147-149 | the new leaf enters the chain right after its left sibling |
| BTree.BTree.InsertKv | metis/lib/keyvals_btree.c:154-172 | the map gets the value behind the key's other values, or a new key with its hash; the result says which; all tree invariants hold after |
| BTree.BTree.InsertKvs | metis/lib/keyvals_btree.c:175-189 | a whole entry is added under a new key |
| BTree.InsertAll | metis/lib/keyvals_btree.c:154-189 | after any sequence of both insertions, whole entries only under new keys, the tree is well formed and its contents are the replayed map |
| BTree.ReplayGroupsByKey | metis/lib/keyvals_btree.c:154-189 | the replayed map has exactly the keys mentioned, each with exactly its values in insertion order |
| BTree.BTree.IterBegin | metis/lib/keyvals_btree.c:227-243 | the iterator has before it every entry of the map, once, in ascending key order |
| BTree.BTree.IterNext | metis/lib/keyvals_btree.c:246-261 | each call returns the next of them; with clearing everything behind the iterator is wiped, and nothing else |
| BTree.BTree.CopyKvs | metis/lib/keyvals_btree.c:271-287 | the copy lists the map in ascending order and its length is nkeys |
| BTreeScan.ChainListsAll | metis/lib/keyvals_btree.c:239-256 | the leaf chain from the leftmost leaf is the in-order listing of the contents |
| BTreeScan.HeightIsLogarithmic | metis/lib/keyvals_btree.c:139-150 | nkeys >= 2 * (order + 1)^(nlevel - 1) for two or more levels |
| BTreeSplit.GrowRootKeepsInv | metis/lib/keyvals_btree.c:58-68 | the root step keeps depth, key ranges, parents and occupancy |
| BTreeSplit.AddKidKeepsInv | metis/lib/keyvals_btree.c:69-85 | the same for adding a child |
| BTreeSplit.SplitKeepsInv | metis/lib/keyvals_btree.c:36-44 | the same for a split, up to the parents of the children that moved |
| Buckets.MapPutKvs | metis/lib/btreebktmgr.c:79-85 | an entry with a key new to the row lands in column hash % cols, so the duplicate assert holds |
| Buckets.MapPut | metis/lib/btreebktmgr.c:88-95 | the row's map gets the value, and every entry stays in the column of its hash |
| Buckets.BktRehash | metis/lib/btreebktmgr.c:110-120 | all entries of a bucket are added to the row's map; every slot they were in is wiped and the bucket is freed |
| Buckets.RehashBak | metis/lib/btreebktmgr.c:123-132 | rehashing into any number of columns preserves the row's map, keeps entries in column hash % cols, never meets a key twice and leaves all old buckets wiped and freed |
| Buckets.SampleThenMap | metis/lib/btreebktmgr.c:88-138 | pairs emitted while sampling, a rehash into another number of columns, and the pairs emitted after it make up one map, as if all had been put into one tree |
| Buckets.PutMaps | metis/lib/btreebktmgr.c:79-85 | putting an entry into the column of its hash is insertion into the row's map |
| TaskCount.Test | metis/lib/kvstore.c:98-104 | the inner loop decides whether some q >= 2 with q * q < n divides n |
| TaskCount.SearchTasks | metis/lib/kvstore.c:95-111 | from every estimate the search ends, with the least acceptable number from there on |
| TaskCount.AcceptedIff | metis/lib/kvstore.c:98-104 | acceptable numbers are exactly 0, 1, the primes and the squares of primes |
| TaskCount.MorePrimes | metis/lib/kvstore.c:96-111 | there is a prime beyond every number, which is why the search ends |
| TaskCount.PrimeDividesProduct | metis/lib/kvstore.c:98-104 | Euclid's lemma, from which squares of primes pass the test |
| Presplitter.PhaseHandsOut | metis/lib/presplitter.c:10-18 | for every interleaving of its workers a finished phase has handed out its splits, each once, and left the index past the end |
| Presplitter.Sampled | metis/lib/mr-sched.c:118-124 | the sample is the largest of five percent, one, and one split for each core if there are as many |
| Presplitter.EachSplitOnce | metis/lib/presplitter.c:62-79 | over sampling, done_sample and mapping together every split is handed out exactly once, whatever the interleavings, although the sampling workers overshoot |
| Presplitter.ExecInv | metis/lib/mr-sched.c:66-75 | every step of a worker keeps: each index fetched is handed out, in flight or past the end, once |
| MergeSort.FindMin | metis/lib/mergesort.c:21-33 | the smallest next pair, of the first collection among equals |
| MergeSort.MergeAll | metis/lib/mergesort.c:16-37 | the output is a permutation of the inputs, sorted by key, then collection, then position |
| MergeSort.Strides | metis/lib/mergesort.c:10-11 | collection c belongs to worker c % ncpus as its number c / ncpus and to no other; the counts are exact |
| MergeSort.Collections.Mergesort | metis/lib/mergesort.c:5-45 | a worker merges its collections into its first, empties its others, touches no other worker's and loses nothing |
| MergeSort.Collections.Round | metis/lib/mr-sched.c:246-246 | for any order of the workers: after a round with ncpus workers the first ncpus collections hold what each worker merged of the collections as they were, all others are empty |
| MergeSort.OrderIsFree | metis/lib/mr-sched.c:246-246 | the collections after a round are the same for every order of the workers |
| MergeSort.Collections.MergeRounds | metis/lib/mr-sched.c:242-250 | the rounds end, and collection 0 then holds every pair in sorted order; the first round has as many workers as cores, or half as many as collections if that is less, and each further one half as many |
| MergeSort.MergedIsSorted | metis/lib/mergesort.c:20-37 | a stable merge is sorted |
| MergeSort.MergedUnique | metis/lib/mergesort.c:16-37 | a stable merge has one result only |
| WordCount.Map | metis/app/wc.c:113-151 | aborts exactly when a word has 256 or more characters; else emits exactly the words of its chunk: letters and apostrophes that begin with a letter and go on as far as they can, in capitals, in order, and every letter of the chunk in one of them |
| WordCount.CutAtSeparator | metis/app/wc.c:101-107 | cutting a text at a separator cuts no word |
| WordCount.Input.Splitter | metis/app/wc.c:82-110 | a chunk reaches from the old position to the next separator at or after the split size |
| WordCount.SplitAll | metis/app/wc.c:82-110 | the chunks tile the file and their words are the words of the file |
| WordCount.CountWords | metis/app/wc.c:82-151 | mapping chunk by chunk emits the words of the whole file, unless one is too long: letters and apostrophes that begin with a letter and go on as far as they can, in capitals, in order, and every letter of the file in one of them |
| WordCount.WordsAreAt | metis/app/wc.c:113-151 | where each word stands in the text, in plain characters |
| WordCount.CaseDoesNotMatter | metis/app/wc.c:125-147 | texts that differ only in case have the same words |
| WordCount.SplittingEndsIff | metis/app/wc.c:88-107 | splitting ends if and only if flen >= nsplits or there is no separator |
| WordCount.StuckAtSeparator | metis/app/wc.c:88-107 | with a chunk size of zero the splitter never passes the first separator |
| Assoc.Assoc.Find | memcached/memcached-1.4.5/assoc.c:69-94 | the item the index has under the key, mid-expansion or not |
| Assoc.Assoc.Before | memcached/memcached-1.4.5/assoc.c:99-116 | the place in the chain where the key's item hangs |
| Assoc.Assoc.Insert | memcached/memcached-1.4.5/assoc.c:137-161 | the index gets the item; beyond 3/2 items per bucket an expansion starts, with one move left per old bucket |
| Assoc.Assoc.Expand | memcached/memcached-1.4.5/assoc.c:119-134 | doubling the table moves nothing and changes nothing in the index, nor does a failed allocation |
| Assoc.Assoc.Delete | memcached/memcached-1.4.5/assoc.c:163-181 | the key leaves the index and everything else stays |
| Assoc.Assoc.MoveBucket | memcached/memcached-1.4.5/assoc.c:198-219 | moving a bucket keeps the index, leaves one move less, and ends with an empty old table |
| Assoc.Assoc.Maintain | memcached/memcached-1.4.5/assoc.c:189-220 | a maintenance turn makes hash_bulk_move such moves, or as many as are left, and changes nothing in the index |
| Assoc.ExactlyOneBucket | memcached/memcached-1.4.5/assoc.c:69-94 | an indexed item is in the one bucket that the expand_bucket test picks, once, and in no other |
| Assoc.SplitsInTwo | memcached/memcached-1.4.5/assoc.c:37-38 | the new table is twice as large, and an item of old bucket b belongs in it to b or to b plus the old size |
| Assoc.HashSizes | memcached/memcached-1.4.5/assoc.c:32-37 | the table starts with 65536 buckets at the initial hash power of 16 |
| Lru.Lru.LinkQ | memcached/memcached-1.4.5/items.c:246-262 | the item becomes the head of its queue; heads, tails, sizes and both pointer directions agree |
| Lru.Lru.UnlinkQ | memcached/memcached-1.4.5/items.c:264-285 | the item is cut out of its place; everything agrees again |
| Slabs.SlabsInit | memcached/memcached-1.4.5/slabs.c:99-140 | each class is the one before times the factor, rounded down and then up to the alignment, as long as that is at most the largest item divided by the factor; every page holds a chunk when the largest size is aligned |
| Slabs.Slabs.ClsId | memcached/memcached-1.4.5/slabs.c:84-93 | the first class whose chunks are large enough, 0 if the size is 0 or there is none |
| Slabs.Slabs.MemoryAllocate | memcached/memcached-1.4.5/slabs.c:392-419 | fails exactly if malloc fails, or the preallocated block has too little left; else memory apart from all pages, in a preallocated block right behind the last, up to the alignment |
| Slabs.Slabs.NewSlab | memcached/memcached-1.4.5/slabs.c:193-215 | fails exactly if the class has a page and another would pass the limit, or there is no memory, and then changes nothing; else a page of fresh chunks, within the limit unless it is the first of its class |
| Slabs.Slabs.Alloc | memcached/memcached-1.4.5/slabs.c:218-269 | fails exactly if the class has no free slot, no chunk on its last page and gets no page, and then changes nothing; else a chunk that nobody had |
| Slabs.Slabs.Free | memcached/memcached-1.4.5/slabs.c:271-299 | the chunk goes from the live ones to the free slots |
| Slabs.ChunksApart | memcached/memcached-1.4.5/slabs.c:193-269 | any two chunks share no byte |
| Slabs.ChunksAligned | memcached/memcached-1.4.5/slabs.c:392-419 | in an aligned preallocated block every chunk of an aligned size is aligned |
| Slabs.NewPageMem | memcached/memcached-1.4.5/slabs.c:193-215 | mem_malloced stays the sum of the pages, within one page per class of the limit |
| ItemState.LinkCoherent | memcached/memcached-1.4.5/items.c:287-306 | do_item_link keeps index, queues, flags, counters, references, chunks, times and ids in agreement |
| ItemState.UnlinkCoherent | memcached/memcached-1.4.5/items.c:308-318 | the same for do_item_unlink, up to an item that is about to be freed |
| ItemState.FreeCoherent | memcached/memcached-1.4.5/items.c:218-232 | the same for item_free |
| ItemState.FreeAsserts | memcached/memcached-1.4.5/items.c:221-224 | an unlinked item is at neither end of its queue |
| ItemState.BumpCoherent | memcached/memcached-1.4.5/items.c:338-343 | the same for do_item_update; queues stay sorted by time |
| ItemState.AllocCoherent | memcached/memcached-1.4.5/items.c:199-215 | the same for the end of do_item_alloc |
| ItemState.OldHead | memcached/memcached-1.4.5/items.c:527-541 | queues being sorted, stopping at the first old item is sound |
| ItemState.AllHidden | memcached/memcached-1.4.5/items.c:521-544 | once every queue is old, everything linked is hidden |
| Cache.Cache.ItemFree | memcached/memcached-1.4.5/items.c:218-232 | called only for an unlinked item without holders, whose asserts then hold; its chunk is free and everything agrees |
| Cache.Cache.Unlink | memcached/memcached-1.4.5/items.c:308-320 | the item leaves index, queue and counters, and is freed exactly when nobody holds it |
| Cache.Cache.Link | memcached/memcached-1.4.5/items.c:287-306 | the item enters index, counters and the head of its queue, with the current time and the next id |
| Cache.Cache.Remove | memcached/memcached-1.4.5/items.c:322-332 | one reference less; the last one of an unlinked item frees it |
| Cache.Cache.Update | memcached/memcached-1.4.5/items.c:334-345 | a linked item whose time is before now - 60, in unsigned 32 bits, goes to the head with the current time, which also un-hides it |
| Cache.Cache.Get | memcached/memcached-1.4.5/items.c:465-508 | a reference exactly to an entry that is neither hidden by a flush nor expired; otherwise the entry is dropped |
| Cache.Cache.SearchTail | memcached/memcached-1.4.5/items.c:100-107 | the oldest idle item among the last 50 of the queue, if there is one |
| Cache.Cache.Steal | memcached/memcached-1.4.5/items.c:108-121 | an expired item's chunk is taken over without passing through the free list |
| Cache.Cache.Evict | memcached/memcached-1.4.5/items.c:153-172 | an evicted item is the oldest unreferenced one among the last 50, and its class then has a free chunk; without eviction the last 50 are all referenced |
| Cache.Cache.EvictAndFetch | memcached/memcached-1.4.5/items.c:148-174 | fails exactly if the queue is empty, or all of its last 50 are referenced and the class gets no page; evicts exactly if one of them is unreferenced, the oldest such, and then succeeds |
| Cache.Cache.Obtain | memcached/memcached-1.4.5/items.c:99-174 | fails exactly if nothing within reach has expired, the class is used up and nothing may or can be evicted, and then changes nothing; unlinks an item exactly if one within reach has expired, the oldest such, or if none has, the class is used up, eviction is allowed and one is unreferenced, the oldest such |
| Cache.Cache.AllocIn | memcached/memcached-1.4.5/items.c:86-216 | fails under exactly that condition, and unlinks an item under exactly that condition; else a new item with one reference |
| Cache.Cache.Sweep | memcached/memcached-1.4.5/items.c:533-541 | after the sweep a queue holds only items older than the flush, and none of those was unlinked |
| Cache.Cache.FlushAll | memcached/memcached-1.4.5/memcached.c:3020-3024 | exactly the items as recent as the flush are unlinked, and every item still linked is hidden |
| Cache.FlushReachesAll | memcached/memcached-1.4.5/memcached.c:155-160 | a flush reaches every item if and only if relative time is at least 2, which the start offset provides |
| Cache.EveryChunkInOnePlace | memcached/memcached-1.4.5/items.c:86-232 | every chunk is in exactly one of page tail, free slots, held unlinked, linked; what is in use fits its chunk |
| Cache.Cache.MaintainIndex | memcached/memcached-1.4.5/assoc.c:189-220 | the maintenance thread changes nothing that the cache can see, and leaves that many moves fewer |
| Hiding.Undisturbed | memcached/memcached-1.4.5/items.c:465-508 | an operation on one key leaves every other entry hidden exactly if it was |
| Entries.SameIdMeansUntouched | memcached/memcached-1.4.5/items.c:50-53 | over every run: the same id for a key at two points means the same entry at all points between |
| Entries.IdsNotReused | memcached/memcached-1.4.5/items.c:50-53 | over every run: an id once handed out never names another entry |
| Commands.Look | memcached/memcached-1.4.5/items.c:465-508 | do_item_get on the map of entries: hidden and expired ones are dropped, nothing else changes |
| Commands.Alloc | memcached/memcached-1.4.5/items.c:86-216 | fails exactly when no class is large enough or the first that is has no room, and then changes nothing; else it costs no entry, or that of the one item it was forced to unlink |
| Commands.LayoutIs | memcached/memcached-1.4.5/items.c:78-93 | the size asked for is that of the fields, the key and its NUL, the printed suffix " flags length", the value and perhaps an id |
| Commands.Swap | memcached/memcached-1.4.5/items.c:347-354 | the new item's entry, with the next id, takes the place of the old one |
| Commands.Join | memcached/memcached-1.4.5/memcached.c:2181-2190 | copying the second value over the line end of the first fills the new item exactly and ends a line |
| Commands.StoreJoined | memcached/memcached-1.4.5/memcached.c:2149-2206 | append and prepend fail exactly if do_item_alloc does, changing nothing; else flags and expiry of the old entry stay and the values are joined |
| Commands.Rewrite | memcached/memcached-1.4.5/memcached.c:2855-2866 | a new item takes the place of a linked one exactly if do_item_alloc succeeds, under the next id and not hidden, at the cost of exactly what that unlinks |
| Commands.Store | memcached/memcached-1.4.5/memcached.c:2103-2218 | the exact answer and the resulting map of add, set, replace, append, prepend and cas, for visible, hidden, expired and missing entries, matching or other ids and memory or none; what is stored is not hidden, and other entries are hidden exactly if they were; a refused add updates the entry it found |
| Commands.ShownIsVisible | memcached/memcached-1.4.5/items.c:465-508 | what a store command left is returned by do_item_get until it expires |
| Commands.Delta | memcached/memcached-1.4.5/memcached.c:2823-2877 | the exact answer: not a number, out of memory exactly if the new number does not fit and do_item_alloc fails, else the sum modulo 2^64, or the difference and 0 if that is negative; then the entry is its digits padded with blanks to the old length, under a new id; other entries are hidden exactly if they were |
| Commands.InPlace | memcached/memcached-1.4.5/memcached.c:2867-2874 | the number, padded with blanks, reads back |
| Commands.Delete | memcached/memcached-1.4.5/memcached.c:2910-2921 | the entry is gone, unless the item was no longer linked |
| Commands.Flush | memcached/memcached-1.4.5/memcached.c:3020-3024 | no entry that was there is visible any more |
| Commands.Begin | memcached/memcached-1.4.5/memcached.c:2728-2756 | fails exactly if do_item_alloc does; else a new item with the client's key, flags, expiry, value and id, at the cost of exactly what that unlinks |
| Commands.Discard | memcached/memcached-1.4.5/memcached.c:2741-2747 | a set that found no memory leaves no entry under its key |
| Commands.Touch | memcached/memcached-1.4.5/items.c:334-345 | changes no entry; un-hides the item, sets its time and takes it to the head of its queue exactly if it is stale |
| Commands.StaleIff | memcached/memcached-1.4.5/items.c:334-345 | an update moves a linked item exactly if relative time is below 60 or the item was last used more than 60 seconds ago |
| Numbers.CounterReadsBack | memcached/memcached-1.4.5/util.c:11-32 | safe_strtoull reads every 64-bit number back from its padded decimal text |
| Numbers.CounterFitsBuffer | memcached/memcached-1.4.5/memcached.c:2854-2855 | no number needs more than 20 characters |
| Numbers.Parses | memcached/memcached-1.4.5/util.c:11-32 | which texts safe_strtoull accepts, and as what: of texts without digits those that begin with a blank, as 0; else a number below 2^64 that a blank or the end follows, and below 2^63 if there is a minus sign |
| Numbers.Spelling | memcached/memcached-1.4.5/util.c:11-32 | every text is blanks, a sign, digits and a rest in the sense of that statement |
| Numbers.ParsesBeforeNul | memcached/memcached-1.4.5/util.c:11-32 | what follows a NUL does not matter |
| Numbers.NumberCut | memcached/memcached-1.4.5/util.c:15-15 | digits are read in positional notation |
| Counters.Arithmetic | memcached/memcached-1.4.5/memcached.c:2784-2806 | incr and decr: not found exactly if nothing is visible; else the entry shows the sum modulo 2^64, or the old number less the delta, or 0 if the delta is larger, or it is the same as before; a decr is never short of memory unless the value was an empty text |
| Counters.Increments | memcached/memcached-1.4.5/memcached.c:2784-2845 | a sequence of increments leaves the counter at its old value plus all added ones modulo 2^64, and can only stop where a number needs more room than its item has |
| Counters.SmallerFits | memcached/memcached-1.4.5/memcached.c:2843-2855 | the result of a decrement fits where the old number was, unless that was an empty text |
| Counters.Decrements | memcached/memcached-1.4.5/memcached.c:2784-2845 | a sequence of decrements leaves the counter at its old value less the total, or at 0 once the total is more; all of them are done unless the value was an empty text |
| Server.Boot | memcached/memcached-1.4.5/memcached.c:150-161 | the initial state, at relative time 2, satisfies every invariant |
| Server.Serve | memcached/memcached-1.4.5/thread.c:329-430 | every sequence of locked operations of any connections keeps all invariants, and the recorded states and answers are a run: each step answers and does to entries, ids, references and hidden items what its command means |
| Server.Visit | memcached/memcached-1.4.5/memcached.c:2542-2625 | item_get and item_update in one step un-hide nothing; a stale item gets the current time and goes to the head of its queue |
| Runs.CasStoredIffUntouched | memcached/memcached-1.4.5/memcached.c:2117-2148 | over every run: if id u of k was seen and k is visible when a cas of k with u is served, it is stored if and only if k had the very same entry at every step between |
| Runs.CasAnswers | memcached/memcached-1.4.5/memcached.c:2117-2148 | in every run a cas answers not found exactly if nothing is visible, stored exactly if the visible entry has its id, else exists |
| Runs.SetAnswers | memcached/memcached-1.4.5/memcached.c:2103-2218 | in every run: a set is always stored, an add exactly if nothing is visible, a replace exactly if something is; these and cas leave what the client sent, under a new id |
| Runs.AppendAnswers | memcached/memcached-1.4.5/memcached.c:2149-2206 | in every run: append and prepend answer not stored if nothing is visible, exists exactly if another id was asked for, else fail exactly for want of memory; they leave one value without its line end and then the other, in the right order, and the older flags and expiry |
| Runs.ReturnedIffResurfaced | memcached/memcached-1.4.5/items.c:334-508 | over every run: a lookup of an unexpired item linked before the last flush returns it if and only if some item_update since that flush moved it |
| Runs.FlushedNeedsUpdate | memcached/memcached-1.4.5/items.c:334-544 | over every run, with any number of flushes: an item linked before a flush is returned after it only if some item_update since moved it |
| Runs.ReadsRespectFlush | memcached/memcached-1.4.5/items.c:465-544 | over every run without a separate item_update: what a lookup returns after a flush was linked after it |
| Runs.ShownSinceLinked | memcached/memcached-1.4.5/items.c:287-306 | over every run: an item linked after a flush is not hidden before the next one |
| Runs.FlushedItemReturns | memcached/memcached-1.4.5/items.c:334-345 | a run from a server just started in which flush_all hides an item and a later item_get returns it |
| Runs.ComesBack | memcached/memcached-1.4.5/items.c:334-345 | every run of that script on a server just started does so if its first malloc succeeds |
| Losses.LostOnlyWhenUsedUp | memcached/memcached-1.4.5/items.c:86-216 | in every step, other than a flush, about another key: an entry that has not expired stays as it is, unless nobody holds its item, it is among the last 50 of its queue, its class is used up and eviction is allowed |
| Losses.LiveEntryStays | memcached/memcached-1.4.5/items.c:86-216 | over every run: an entry stays as it is until it expires if no step flushes or is about its key and its class is not used up whenever its item is exposed |
| Losses.StoredIsReadBack | memcached/memcached-1.4.5/items.c:465-508 | over every run: what a storage command left is what a later lookup returns, until it expires, under the same conditions |
| OutputQueue.Conn.EnsureIovSpace | memcached/memcached-1.4.5/memcached.c:631-654 | after growing, every message points at its own entries in the moved array |
| OutputQueue.Conn.AddMsghdr | memcached/memcached-1.4.5/memcached.c:205-241 | a new message, with its header slot first in a datagram |
| OutputQueue.Conn.AddIov | memcached/memcached-1.4.5/memcached.c:661-708 | the stream grows by exactly the bytes added; datagrams, and the first stream message, stay within 1400 bytes, all messages within IOV_MAX entries |
| OutputQueue.DeliveredIsPayload | memcached/memcached-1.4.5/memcached.c:661-708 | the division into messages loses, repeats and reorders nothing |
| OutputQueue.Conn.BuildUdpHeaders | memcached/memcached-1.4.5/memcached.c:714-748 | every slot becomes a header from which request id, number and count of the datagram can be read, as far as they fit two bytes each; nothing else changes |
| OutputQueue.DatagramIs | memcached/memcached-1.4.5/memcached.c:714-748 | each datagram is its header and its payload, at most 1400 bytes, and says its request id, number and count |
| OutputQueue.HeaderAnnounces | memcached/memcached-1.4.5/memcached.c:735-742 | bytes 0-1, 2-3 and 4-5 of a datagram read as request id, number and count, as far as they fit; bytes 6 and 7 are 0 |
| OutputQueue.Reassembles | memcached/memcached-1.4.5/memcached.c:714-748 | up to 65535 datagrams, in any order: each says how many there are, and put in the order of their numbers they give the payloads |
| OutputQueue.ReadyToSend | memcached/memcached-1.4.5/memcached.c:3359-3415 | what remains to be sent at first is the whole stream |
| OutputQueue.Conn.Transmit | memcached/memcached-1.4.5/memcached.c:3359-3389 | what sendmsg took is the front of what remained, and the rest remains; a message taken to its end is done with |
| OutputQueue.Conn.Consume | memcached/memcached-1.4.5/memcached.c:3376-3388 | taking bytes off a message disturbs no other message |
| OutputQueue.Conn.Drive | memcached/memcached-1.4.5/memcached.c:3359-3415 | after any partial sends, sent bytes followed by remaining bytes are the original stream; no more is sent than was taken; nothing remains once something was taken as often as there are bytes and messages, or as many whole messages as there are |
| OutputQueue.RespondTcp | memcached/memcached-1.4.5/memcached.c:3647-3697 | for any buffers and any partial sends, what was sent and what is left are the buffers; nothing is left once sendmsg has taken enough |
| OutputQueue.RespondUdp | memcached/memcached-1.4.5/memcached.c:3647-3697 | for any buffers, what was sent and what is left are datagrams of at most 1400 bytes, numbered in their headers; a receiver who gets up to 65535 of them in any order puts the buffers together again; nothing is left once sendmsg has taken enough |
| Lookup3.MixIsBijection | memcached/memcached-1.4.5/hash.c:78-86 | mix has an inverse |
| Lookup3.FinalIsBijection | memcached/memcached-1.4.5/hash.c:113-122 | final has an inverse |
| Lookup3.RotBit | memcached/memcached-1.4.5/hash.c:32-32 | bit i of a word is bit (i + k) mod 32 after the rotation by k |
| Lookup3.FourScoreHashes | memcached/memcached-1.4.5/hash.c:125-297 | the two published hash values of "Four score and seven years ago", three blocks long |
| Lookup3.ShortHashes | memcached/memcached-1.4.5/hash.c:125-297 | the hash values of the empty key and of "a" |
| Lookup3.HashByWord | memcached/memcached-1.4.5/hash.c:137-203 | the hash of the key's bytes, whatever follows them in memory |
| Lookup3.HashByHalf | memcached/memcached-1.4.5/hash.c:205-250 | the same hash |
| Lookup3.HashByByte | memcached/memcached-1.4.5/hash.c:252-293 | the same hash |
| Lookup3.HashAt | memcached/memcached-1.4.5/hash.c:125-297 | the hash does not depend on the key's address |
| Lookup3.Masks | memcached/memcached-1.4.5/hash.c:166-181 | masking a word leaves the word of its low bytes |
| TicketLock.Reachable | micro/spinlock.h:28-53 | after any steps of at most 256 threads the tickets, counters and reads are consistent |
| TicketLock.MutualExclusion | micro/spinlock.h:28-53 | at most one of at most 256 threads is between lock and unlock, in every interleaving |
| TicketLock.FirstComeFirstServed | micro/spinlock.h:28-53 | threads enter in the order of their tickets, one after each release |
| TicketLock.ExclusionIff | micro/spinlock.h:28-53 | the lock excludes in every run if and only if there are at most 256 threads |
| TicketLock.TooManyThreads | micro/spinlock.h:28-53 | 257 threads: a run with two of them inside |
| TicketLock.OneEntryAtRelease | micro/lock.c:114-123 | the shared list has exactly one entry whenever the lock is released or free, and every other entry was never used or has both pointers poisoned |
| TicketLock.WorkList | micro/list.h:38-105 | how each pointer write of list_del and list_add moves the list on |

## Left out

- Sockets, events, parsing of command lines, authentication, statistics and the binary protocol: plumbing around the modelled operations.
- The tail-repair branch of `do_item_alloc`: it frees an item that is referenced, so reference counts are stated for runs without it.
- Delayed `flush_all` and the conversion of expiry times to relative time.
- The slab `requested` counter: taking over an expired item bypasses it, so it is no sum of live sizes.
- `slabs_preallocate`, and growing the pointer arrays of pages and free slots: only sizes change.
- Failing allocations, other than that of the larger hash table, of a slab page and of an item.
- Freeing of B+tree nodes: a freed tree has no levels, and its nodes stay behind as garbage.
- Key copying, and what `values_insert` does besides appending a value.
- The reduce phase, sample sort, the estimates made while sampling and the other Metis applications.
- The growth loop of `presplitter_init`, which only reallocates an array, and the thread pool, which only starts and joins workers.
- Big-endian hashing, and the copy of the hash for memory checkers: variants of the same paths.
- The other microbenchmarks and the Python driver.
- Cache.Cache.Obtain: `malloc` may answer differently at the second attempt; the third attempt, after tail repair, is left out with it.
- Cache.Cache.Tick: time is assumed not to go back and to stay below 2^32 seconds; counters of ids and references are unbounded.
- Cache.Cache.Link: that an id counter of 64 bits wraps around is not modelled.
- Slabs.Slabs.constructor: `perslab >= 1` and, in the cache, `power_largest < LARGEST_ID` are assumed of the configuration.
- Server.Create: the removal of the old entry after a failed set is part of its step; as separate steps it is a Get, an Unlink and a Release.
- Commands.Delta: the item has to be linked still; a connection whose item was replaced between `item_get` and `add_delta` is not modelled.
- Numbers.ParseU64: the text ends where the item's data ends; `strchr` looking further is not modelled.
- BTree.BTree.InsertKv: keys are real numbers in their natural order, standing for any total order that `keycmp` gives.
- TaskCount.Test: the floating-point square root is replaced by the comparison q * q < n.
- WordCount.SplitAll: only for inputs on which splitting ends.
- Slabs.SlabsInit: the growth factor is a real number, without the rounding of doubles.
- OutputQueue.Conn.Transmit: a result of sendmsg that is zero or an error changes nothing and is not a call of it.
- OutputQueue.RespondUdp: headers are built once, before anything is sent; that `conn_mwrite` builds them again while the first message is current is not modelled.
- Nothing was executed.
