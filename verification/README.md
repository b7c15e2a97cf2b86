# A model of the hard parts of EagleMQ and its allocator

EagleMQ is a message broker in C that can be built against a vendored jemalloc. This project models the parts
of both where correctness is least obvious and proves what they promise.

The jemalloc side:

- `Runs.dfy`, `ArenaState.dfy`, `Arena.dfy`: the page-run allocator of an arena. A chunk's page map is read as a sequence
  of runs; splitting, freeing, trimming, growing and coalescing keep that reading, the incremental counters and the
  best-fit index in step.
- `Bins.dfy`: small-object bins on top of it, with the lock that is dropped in the middle of an allocation.
- `RedBlack.dfy`: the left-leaning red-black trees generated by `rb.h`, with recorded paths.
- `Prof.dfy`: reclamation of heap-profile contexts, a state machine over any number of threads, whose failing insertions
  do to hash and caches what `Cuckoo.dfy` proves `ckh_insert` to do.
- `Cuckoo.dfy`, `Bitmap.dfy`, `Extents.dfy`: cuckoo hashing against a map, the multi-level bitmap against a flat vector
  of bits, and the two extent trees against a set of free addresses.

The EagleMQ side:

- `Lzf.dfy`: the LZF compressor and decompressor.
- `NodeList.dfy`, `MessageQueue.dfy`: the linked list node by node, and the life of a message in a queue on top of it.
- `StorageFormat.dfy`, `Storage.dfy`: the durable store, on top of the compressor.
- `Request.dfy`: reassembly of request frames from arbitrary reads.
- `Indices.dfy`, `Broker.dfy`: the two-way indices between clients, queues, routes and channels.

`Basics.dfy` holds what several modules share. What the source updates in place is a class with methods, each with a
contract that gives the new state in terms of the old; protocols are state machines; the rest is functions and lemmas.

## Where the code and what is said about it differ

The model follows the code, and says exactly when it does what is expected of it. Concrete cases where it does not are
`Lzf.Expands` and `Lzf.TwoToThree`, `Bins.NotLowest`, `Prof.LeakHappens`, `Prof.FreedCounterUsed` and
`Prof.FreedContextUsed`, `Cuckoo.LosesOld`, `Extents.RecycleLoses`, `Extents.RecordLoses` and `Extents.Unjoined`,
`MessageQueue.StaleTail`, `MessageQueue.PurgeStale` and `MessageQueue.OverLimit`, `StorageFormat.OverLimit`,
`Storage.EmptyMessage`, `Request.SplitHeader` and `Request.PastTheEnd`.

- `lzf_c.c` describes its format with 33 literals and a 4096 offset; the code uses runs of up to 32 literals, 13-bit
  offsets and references of up to 264 octets. `lzf.h` promises an output below 104% of the input. That holds for inputs of
  26 to 32, 51 to 64, 76 to 96, and 101 or more octets (`Lzf.Compress` with `Lzf.DenseLengths`); for every other positive length
  there is an input whose every successful result breaks it (`Lzf.Expands`).
- The comment on `arena_bin_lower_run` says that `runcur`, if set, is the lowest non-full run. That fails exactly when a
  thread takes up a newly allocated run, because `runcur` is full or missing, while a lower run is in the tree
  (`Bins.Bin.MallocFinish`).
- An out-of-memory exit from `prof_lookup` on an existing context leaves `nlimbo` raised. `Prof.NlimboExact` says by how
  much, `Prof.LeakKeepsAlive` that the context then stays forever.
- When `ckh_insert` finds no place and the first table it wants to grow into cannot be had, the new entry is in the table
  and an old one is gone (`Cuckoo.Table.Insert`). `prof_lookup` takes such a failure for one that changed nothing and frees
  what the new entry refers to. The invariant of the contexts survives a failing insertion exactly if the new entry is the
  one that is missing (`Prof.FailedInsertIff`); otherwise the next lookup of the same backtrace uses freed memory
  (`Prof.DirtyBreaks`), and the context of the dropped entry is no longer in the hash. The results about runs are for runs
  in which this does not happen (`Prof.CleanRun`).
- `chunk_recycle` loses the space behind the returned range exactly when it has no node and the best fit leaves space on
  both sides; `chunk_record` loses the range exactly when it has no node and no extent follows that could take it in
  (`Extents.ChunkTrees`). When `chunk_recycle` had to drop the lock, it puts that space back without joining it with what
  another thread may have recorded behind it (`Extents.ChunkTrees.RecycleFinish`).
- `queue_pop_value` leaves a pointer to the freed node in the new tail, and `queue_delete_node` takes it for a neighbour if
  that tail is deleted (`NodeList.List.Delete`). So the sweep of expired messages does what it should exactly if the oldest
  message is not such a tail and expired (`MessageQueue.Queue.SweepExpired`).
- `queue_purge` leaves the tail pointing to a freed node, where saving the queue starts, unless something was pushed in
  between (`NodeList.List.Walk`).
- `purge_queue_t` leaves the expiry list alone; the two agree afterwards exactly if no queued message expires.
- Returning unconfirmed messages can put a queue above its limit, and then it does not come back whole from the store
  (`StorageFormat.ReloadedIff`); a durable empty message makes the save fail (`Storage.SaveLoad`).
- `process_request` loses the bytes of a header that two reads share. It enlarges the request buffer only for a body that
  is larger than the buffer, though header and body are copied there: a body within eight octets of the buffer's size is
  written past its end. Unless a header was split, this happens exactly for those frames (`Request.Client.Receive`).
- A client that unsubscribes from a topic nobody listens to is answered with a failure and then with success
  (`Broker.Server.UnlistenCommand`).

## Model

| member | source | states |
|---|---|---|
| `Arena.PageArena.AvailInsert` | deps/jemalloc/src/arena.c:247-278 | a chunk whose counts leave the free run out becomes one whose counts, index and dirty key are those of its page map, whatever flags are given that are false only where there is no free neighbour |
| `Arena.PageArena.AvailRemove` | deps/jemalloc/src/arena.c:280-312 | the inverse: counts that were those of the page map now leave exactly this free run out, under the same condition on the flags |
| `Arena.PageArena.RunSplit` | deps/jemalloc/src/arena.c:371-511 | the front of a free run becomes an allocated run, the rest stays a free run of the same dirtiness, and tiling, boundary tags, coalescing, counters and index hold again |
| `Arena.PageArena.RunDalloc` | deps/jemalloc/src/arena.c:960-1094 | freeing removes exactly that block from the live ones; afterwards no two neighbouring free runs are equally dirty, and a wholly free chunk has become the spare |
| `Arena.PageArena.ChunkAlloc` | deps/jemalloc/src/arena.c:513-586 | the spare, or a chunk mapped while the lock was dropped, is brought in as one free run with all counters right; a spare another thread left meanwhile stays |
| `Arena.PageArena.ChunkDealloc` | deps/jemalloc/src/arena.c:588-618 | a wholly free chunk leaves index and counts and becomes the spare, replacing the old spare |
| `Arena.PageArena.NSearch` | deps/jemalloc/src/arena.c:106-132 | the lowest-address run among the smallest that are large enough, or none exactly if none is large enough |
| `Arena.PageArena.RunAllocHelper` | deps/jemalloc/src/arena.c:620-642 | allocates from that run and adds exactly the new block |
| `Arena.PageArena.RunAllocStart` | deps/jemalloc/src/arena.c:644-664 | takes the lowest best fit if there is one, else the front of the spare; nothing exactly if there is neither, and then nothing changes |
| `Arena.PageArena.RunAllocFinish` | deps/jemalloc/src/arena.c:664-677 | with the lock taken again, in any state: the front of the new chunk, or a second search; fails exactly if there is no chunk and still no fit |
| `Arena.PageArena.RunAlloc` | deps/jemalloc/src/arena.c:644-677 | the lowest best fit, else the spare; else, with the arena as the other threads leave it while a chunk is mapped, the front of that chunk or a second search; exactly one block more than the arena then had, and failure exactly if there is neither chunk nor fit |
| `Arena.PageArena.TrimHead` | deps/jemalloc/src/arena.c:1096-1125 | the leading pages become free and the block now starts later |
| `Arena.PageArena.TrimTail` | deps/jemalloc/src/arena.c:1128-1159 | the trailing pages become free and the block is now shorter |
| `Arena.PageArena.Palloc` | deps/jemalloc/src/arena.c:1526-1578 | an aligned block of exactly the requested pages, all leading and trailing pages given back; failure exactly when the padded request cannot be met, whatever other threads do while a chunk is mapped |
| `Arena.PageArena.RallocShrink` | deps/jemalloc/src/arena.c:1793-1820 | the block shrinks in place |
| `Arena.PageArena.RallocGrow` | deps/jemalloc/src/arena.c:1823-1887 | growth in place fails exactly if no free run of the needed size follows (the unsigned comparison makes a request below the old size fail); otherwise it takes as much as allowed and available |
| `Arena.PageArena.DallocBinRun` | deps/jemalloc/src/arena.c:1626-1675 | freeing the run of a bin, trimming never-touched clean pages first, removes exactly that block |
| `Arena.CountersMatchScan` | deps/jemalloc/src/arena.c:208-312 | whatever way the page map can be read as runs, the incremental counters and the index are those of that reading, and the reading is coalesced |
| `Runs.TilesUnique` | deps/jemalloc/include/jemalloc/internal/arena.h:479-700 | a page map can be read as consecutive runs in at most one way |
| `Runs.AdjacBelowAvail` | deps/jemalloc/src/arena.c:267-300 | adjacent free pairs are fewer than free runs, which the source asserts |
| `ArenaState.StateReplace` | deps/jemalloc/src/arena.c:371-511 | a change confined to one chunk keeps the whole arena's invariant if that chunk is in order |
| `ArenaState.MergeForward` | deps/jemalloc/src/arena.c:1017-1042 | absorbing the following free run of equal dirtiness |
| `ArenaState.MergeBackward` | deps/jemalloc/src/arena.c:1044-1069 | absorbing the preceding one, found through its last boundary tag |
| `ArenaState.Retire` | deps/jemalloc/src/arena.c:588-618 | taking out a wholly free chunk keeps every count over the remaining chunks |
| `Bins.RegAlloc` | deps/jemalloc/src/arena.c:314-333 | hands out the lowest free region, keeps `nfree` equal to the clear bits and every region from `nextind` on untouched |
| `Bins.RegDalloc` | deps/jemalloc/src/arena.c:335-359 | gives one region back; `nfree` stays the number of clear bits |
| `Bins.Bin.TryGet` | deps/jemalloc/src/arena.c:1206-1216 | the lowest run of the tree is taken out |
| `Bins.Bin.MallocStart` | deps/jemalloc/src/arena.c:1275-1291 | a region that was not live becomes live, or no run has a free region and the lock is dropped |
| `Bins.Bin.MallocFinish` | deps/jemalloc/src/arena.c:1250-1322 | after the lock was dropped: fails exactly if no run was obtained and none has space; `runcur` is the lowest non-full run afterwards exactly unless a new run was obtained, the old `runcur` was not usable, and a lower run was in the tree |
| `Bins.Bin.LowerRun` | deps/jemalloc/src/arena.c:1677-1696 | a run with free regions becomes `runcur` if lower, else goes into the tree |
| `Bins.Bin.Dalloc` | deps/jemalloc/src/arena.c:1698-1731 | exactly the freed region stops being live; an empty run leaves the bin, a formerly full one comes back |
| `Bins.NotLowest` | deps/jemalloc/src/arena.c:1680-1684 | from an empty bin, six operations after which `runcur` is above a run in the tree |
| `Bins.RegIndex` | deps/jemalloc/include/jemalloc/internal/arena.h:714-790 | the multiply-and-shift form is exact division for every region of a run, without 32-bit overflow |
| `Bins.Reciprocal` | deps/jemalloc/include/jemalloc/internal/arena.h:744-776 | multiplying by the rounded-up reciprocal is exact below 2^11 |
| `RedBlack.Insert` | deps/jemalloc/include/jemalloc/internal/rb.h:452-519 | keeps order, left-leaning 2-3 shape and black height, and adds exactly the key |
| `RedBlack.Remove` | deps/jemalloc/include/jemalloc/internal/rb.h:520-857 | keeps them as well, and removes exactly the key |
| `RedBlack.UnwindInsert` | deps/jemalloc/include/jemalloc/internal/rb.h:474-515 | one unwinding step after insertion keeps the keys and restores the shape locally |
| `RedBlack.UnwindRemove` | deps/jemalloc/include/jemalloc/internal/rb.h:618-850 | one unwinding step after removal, in all its cases, keeps the keys and the shape and passes on at most one missing black level |
| `RedBlack.RemoveSwap` | deps/jemalloc/include/jemalloc/internal/rb.h:553-581 | replacing a node by its successor while the path is already recorded |
| `RedBlack.Prune` | deps/jemalloc/include/jemalloc/internal/rb.h:608-617 | cutting off the last node of the path |
| `RedBlack.Search` | deps/jemalloc/include/jemalloc/internal/rb.h:390-407 | finds a key exactly if it is in the tree |
| `RedBlack.NSearch` | deps/jemalloc/include/jemalloc/internal/rb.h:408-429 | the key, or the next greater one, or none exactly if all are smaller |
| `RedBlack.PSearch` | deps/jemalloc/include/jemalloc/internal/rb.h:430-451 | the key, or the next smaller one, or none exactly if all are greater |
| `RedBlack.First` | deps/jemalloc/include/jemalloc/internal/rb.h:316-324 | the smallest key |
| `RedBlack.Last` | deps/jemalloc/include/jemalloc/internal/rb.h:325-333 | the greatest key |
| `RedBlack.Next` | deps/jemalloc/include/jemalloc/internal/rb.h:334-361 | the neighbour above in key order |
| `RedBlack.Prev` | deps/jemalloc/include/jemalloc/internal/rb.h:362-389 | the neighbour below in key order |
| `RedBlack.HeightBound` | deps/jemalloc/include/jemalloc/internal/rb.h:452-470 | two to the height is at most the square of the number of keys plus one |
| `RedBlack.PathFits` | deps/jemalloc/include/jemalloc/internal/rb.h:452-470 | so the fixed path array is large enough for every tree an address space can hold |
| `Prof.StepSound` | deps/jemalloc/src/prof.c:431-553 | while the invariant holds no step of any thread touches a context or counter that does not exist, `nlimbo` never wraps, and a context to be destroyed is found in the hash |
| `Prof.StepInv` | deps/jemalloc/src/prof.c:431-553 | every step, by any thread, keeps the invariant, unless a failing insertion leaves its table changed |
| `Prof.FailedInsertIff` | deps/jemalloc/src/prof.c:475-539 | a lookup whose insertion into hash or cache fails keeps the invariant exactly if the entry missing at the end is the new one; never so if that table had not grown before |
| `Prof.DirtyBreaks` | deps/jemalloc/src/prof.c:475-539 | otherwise, from any state, the same thread can go on to use the freed counter or context: the very next lookup of the backtrace finds it |
| `Prof.FreedCounterUsed` | deps/jemalloc/src/prof.c:535-539 | from the start, a run in which a fifth counter finds no place, is freed, stays in the cache, and is written to |
| `Prof.FreedContextUsed` | deps/jemalloc/src/prof.c:475-481 | the same with a context in the global hash |
| `Prof.DestroyIsSafe` | deps/jemalloc/src/prof.c:674-713 | under the invariant a context that passes the test has no other thread in limbo on it, no linked counter, no live object |
| `Prof.DestroyStep` | deps/jemalloc/src/prof.c:674-713 | destroying, or not destroying and lowering `nlimbo`, keeps the invariant |
| `Prof.MergeStep` | deps/jemalloc/src/prof.c:716-752 | folding a counter in keeps objects = merged count + linked counters |
| `Prof.MallocStep` | deps/jemalloc/include/jemalloc/internal/prof.h:420-463 | recording an allocation keeps the account of every context |
| `Prof.ReleaseStep` | deps/jemalloc/include/jemalloc/internal/prof.h:540-566 | so does recording a release through a counter |
| `Prof.ReleaseDirect` | deps/jemalloc/include/jemalloc/internal/prof.h:566-577 | and directly in the context when no counter could be had |
| `Prof.RunInv` | deps/jemalloc/src/prof.c:431-553 | no clean interleaving of any length breaks, and the invariant holds wherever it leads; clean means that no failing insertion leaves its table changed |
| `Prof.DestroyedOnceAndUnused` | deps/jemalloc/src/prof.c:674-752 | whenever after a clean interleaving a context disappears nobody was using it, and it never reappears, whatever happens then |
| `Prof.NlimboExact` | deps/jemalloc/src/prof.c:517-541 | wherever a clean interleaving leads, `nlimbo` is the number of threads in limbo plus the number of out-of-memory exits taken on the existing context |
| `Prof.LeakKeepsAlive` | deps/jemalloc/src/prof.c:522-527 | after one such exit the context is never destroyed, in any clean continuation |
| `Prof.LeakHappens` | deps/jemalloc/src/prof.c:522-527 | a concrete run after which `nlimbo` exceeds the number of threads in limbo |
| `Prof.DestroyHappens` | deps/jemalloc/src/prof.c:674-752 | a concrete run from the start through a thread's exit in which its context is made, merged and destroyed |
| `Lzf.Compress` | src/lzf_c.c:98-290 | for every input and every content of the hash table a non-zero result decodes to the input, is at most n + (n + 31) / 32 long, below 104% for dense lengths, and is certain when the buffer has n + n/32 + 4 bytes |
| `Lzf.DenseLengths` | src/lzf.h:57-61 | the lengths for which the promised 104% follows from the bound: 26 to 32, 51 to 64, 76 to 96, and everything from 101 on |
| `Lzf.DifferentCost` | src/lzf_c.c:98-290 | any stream that decodes to an input of pairwise different octets is at least as long as the bound |
| `Lzf.Expands` | src/lzf.h:57-61 | for every other positive length an input whose every successful result is 104% or more |
| `Lzf.TwoOctets` | src/lzf_c.c:98-290 | no stream shorter than three octets decodes to two octets |
| `Lzf.TwoToThree` | src/lzf.h:57-61 | two octets are refused or become three |
| `Lzf.RoundTrip` | src/lzf_c.c:98-290 | compress then decompress into a large enough buffer gives back exactly the bytes and the length; into a smaller one it fails with the buffer too small |
| `Lzf.Decompress` | src/lzf_d.c:55-184 | on every non-empty input all accesses stay inside the buffers and result and error are those of the reference decoder |
| `Lzf.CopyForward` | src/lzf_d.c:156-177 | the unrolled switch and the overlapping loop copy octet by octet |
| `Lzf.CopyBlock` | src/lzf_d.c:150-155 | the block copy gives the same when source and target do not overlap |
| `Lzf.CopyReference` | src/lzf_d.c:145-177 | whichever strategy is chosen, the outcome is the forward octet copy |
| `Lzf.LiteralRun` | src/lzf_d.c:68-101 | one literal token, with its two error cases |
| `Lzf.BackReference` | src/lzf_d.c:102-179 | one back-reference token, with its error cases |
| `Lzf.MatchLength` | src/lzf_c.c:174-206 | the match really matches, to the length that is emitted |
| `Lzf.Literal` | src/lzf_c.c:256-269 | one literal, with the control byte patched in when the run is full |
| `Lzf.EmitMatch` | src/lzf_c.c:171-221 | closing the literal run and writing the reference extends the encoded prefix by the match |
| `Lzf.Finish` | src/lzf_c.c:272-289 | the remaining literals complete the encoding |
| `Lzf.DecodeConcat` | src/lzf_d.c:64-183 | decoding a concatenation is decoding its parts one after the other |
| `Lzf.EncodesMatch` | src/lzf_c.c:206-221 | appending a back-reference to an encoding of a prefix encodes the longer prefix |
| `Lzf.DecodeTooBig` | src/lzf_d.c:72-76 | an output buffer that is too small is always reported |
| `Cuckoo.Table.constructor` | deps/jemalloc/src/ckh.c:346-399 | an empty table with room for the items at load factor 3/4 and no more than that needs |
| `Cuckoo.Table.CellSearch` | deps/jemalloc/src/ckh.c:70-89 | looking into the two buckets finds a key exactly if it is anywhere in the table |
| `Cuckoo.Table.Search` | deps/jemalloc/src/ckh.c:509-526 | returns the entry of the map |
| `Cuckoo.Table.Count` | deps/jemalloc/src/ckh.c:425-432 | the number of entries of the map |
| `Cuckoo.Table.TryBucket` | deps/jemalloc/src/ckh.c:91-115 | puts the item into a free cell, or the bucket is full and nothing changed |
| `Cuckoo.Table.EvictReloc` | deps/jemalloc/src/ckh.c:123-190 | items are only moved; on a cycle one item is handed back, never the new one |
| `Cuckoo.Table.TryInsert` | deps/jemalloc/src/ckh.c:192-215 | contents plus what is handed back are the old contents plus the new item |
| `Cuckoo.Table.Rebuild` | deps/jemalloc/src/ckh.c:221-242 | the new table holds exactly the items of the old, or is given up |
| `Cuckoo.Table.Grow` | deps/jemalloc/src/ckh.c:244-297 | a larger table with the same items, or the old table untouched |
| `Cuckoo.Table.Shrink` | deps/jemalloc/src/ckh.c:299-343 | the same items in half the table, or the old table untouched |
| `Cuckoo.Table.Insert` | deps/jemalloc/src/ckh.c:454-475 | the map gains exactly the entry, always so with a free cell in one of its buckets; if growth fails exactly one entry is missing, the table had at least four, and it is an old one if the first growth already fails; certain loss if the key and the items of its full bucket have nowhere else to go |
| `Cuckoo.LosesOld` | deps/jemalloc/src/ckh.c:454-475 | from a new table, insertions with one bucket for all keys until one of the earlier entries is gone and the newest is there |
| `Cuckoo.Table.Remove` | deps/jemalloc/src/ckh.c:478-507 | the map loses exactly the key, through a shrink if one happens |
| `Bitmap.InfoInit` | deps/jemalloc/src/bitmap.c:19-46 | the level offsets, ending at the first level of one group |
| `Bitmap.Init` | deps/jemalloc/src/bitmap.c:63-90 | from any memory content: every parent bit right, trailing bits clear, all logical bits unset |
| `Bitmap.Get` | deps/jemalloc/include/jemalloc/internal/bitmap.h:77-87 | the bit of the flat vector |
| `Bitmap.Set` | deps/jemalloc/include/jemalloc/internal/bitmap.h:89-120 | sets exactly that bit of the flat vector and keeps every parent bit right |
| `Bitmap.Unset` | deps/jemalloc/include/jemalloc/internal/bitmap.h:147-179 | clears exactly that bit and keeps every parent bit right |
| `Bitmap.IsFull` | deps/jemalloc/include/jemalloc/internal/bitmap.h:67-75 | the root group is zero exactly if all logical bits are set |
| `Bitmap.SetFirstUnset` | deps/jemalloc/include/jemalloc/internal/bitmap.h:122-145 | sets and returns the lowest unset bit |
| `Bitmap.Climb` | deps/jemalloc/include/jemalloc/internal/bitmap.h:105-119 | flipping the one wrong parent bit moves the wrong spot up a level, or removes it |
| `Bitmap.FullRoot` | deps/jemalloc/include/jemalloc/internal/bitmap.h:67-75 | the equivalence behind the full test, through all levels |
| `Extents.ChunkTrees.Record` | deps/jemalloc/src/chunk.c:209-284 | the free addresses gain exactly the range; extents stay separate, and untouching if they were; without a node the range is lost unless the following extent takes it in |
| `Extents.ChunkTrees.RecycleStart` | deps/jemalloc/src/chunk.c:44-104 | an aligned range out of the best fit, nothing exactly if no extent has the padded size; the free addresses lose exactly the range, or also the part behind it, exactly if the best fit leaves space on both sides |
| `Extents.ChunkTrees.RecycleFinish` | deps/jemalloc/src/chunk.c:90-115 | that part is put back after the lock was dropped, in any state of the trees; all stay joined exactly unless another thread has recorded what is behind it; without a node it is lost, and `chunk_dealloc` records the rest or not |
| `Extents.Unjoined` | deps/jemalloc/src/chunk.c:103-112 | a concrete run of two threads after which two touching extents are not joined |
| `Extents.ChunkTrees.Recycle` | deps/jemalloc/src/chunk.c:44-131 | undisturbed: the free addresses lose exactly the range, or also the part behind it, exactly if no node can be had and the best fit leaves space on both sides |
| `Extents.LeavesBothIs` | deps/jemalloc/src/chunk.c:61-110 | which is a matter of where the one best fit lies, before the call |
| `Extents.RecycleLoses` | deps/jemalloc/src/chunk.c:96-111 | a concrete tree that loses three addresses |
| `Extents.RecordLoses` | deps/jemalloc/src/chunk.c:245-258 | a concrete record of which nothing is kept |
| `Extents.Leads` | deps/jemalloc/src/chunk.c:61-80 | the padding is enough for an aligned place inside the extent, without wrap-around |
| `Extents.SamePlace` | deps/jemalloc/src/chunk.c:230-240 | moving an extent's start down over the recorded range does not change its place in address order |
| `Extents.SamePlaceBack` | deps/jemalloc/src/chunk.c:262-273 | nor does moving it down over the preceding extent, once that is taken out |
| `Extents.Canonical` | deps/jemalloc/src/chunk.c:209-284 | the free addresses determine the extents, if none touch |
| `Extents.GivenBack` | deps/jemalloc/src/chunk.c:209-284 | recording a recycled range again restores the very same extents |
| `Extents.JoinOk` | deps/jemalloc/src/chunk.c:226-281 | joining with both neighbours adds exactly the range's addresses |
| `NodeList.List.PushHead` | src/queue.c:68-89 | one more value at the head; a pointer left over in the tail stays |
| `NodeList.List.PushTail` | src/queue.c:91-112 | one more value at the tail, whose `next` is `NULL` again |
| `NodeList.List.Get` | src/queue.c:114-125 | the oldest value, nothing exactly if there is none |
| `NodeList.List.Pop` | src/queue.c:127-145 | the oldest value goes; unless it was the only one, the new tail points to its freed node |
| `NodeList.List.Purge` | src/queue.c:147-169 | all values go, node by node; the tail of a list that had some is left pointing to a freed node |
| `NodeList.List.Delete` | src/queue.c:171-191 | exactly that value goes and the list is in order, exactly unless the node is the tail and a pointer is left over there; then something is written to through a freed node, or the list cannot be read any more |
| `NodeList.List.Walk` | src/storage.c:321-342 | from the tail, oldest first, all values; it starts at a freed node exactly if the list was purged and not used since |
| `MessageQueue.Queue.Push` | src/queue_t.c:112-191 | accepted exactly if small enough and subscribed, not full or forced; delivered to the right subscribers, or put at the head with the oldest giving way; notify subscribers hear of every message of an allowed size, taken or not |
| `MessageQueue.Queue.Pop` | src/queue_t.c:198-212 | the oldest message becomes unconfirmed or is retired; a pointer to its node is left over if others remain |
| `MessageQueue.Queue.Confirm` | src/queue_t.c:214-234 | the first unconfirmed message with the tag is retired; fails exactly if there is none |
| `MessageQueue.Queue.SweepExpired` | src/queue_t.c:374-390 | exactly the expired messages leave queue and expiry list, if and only if the oldest message is not an expired one that an earlier pop has left with a pointer to a freed node |
| `MessageQueue.Queue.SweepUnconfirmed` | src/queue_t.c:392-425 | exactly the timed-out messages leave the unconfirmed list; those not expired return at the oldest end |
| `MessageQueue.Queue.Tick` | src/eagle.c:267-281 | after a turn nothing queued is expired and nothing unconfirmed is overdue, under the same condition |
| `MessageQueue.Queue.Purge` | src/queue_t.c:275-278 | empties the queue; queue and expiry list agree afterwards exactly if no queued message expires |
| `MessageQueue.PurgeStale` | src/queue_t.c:275-278 | a concrete purge after which the expiry list refers to a message that is gone |
| `MessageQueue.StaleTail` | src/queue_t.c:374-390 | three pushes, a pop and a sweep that goes wrong |
| `MessageQueue.OverLimit` | src/queue_t.c:392-425 | push, pop, push and the sweep of unconfirmed messages leave two messages in a queue for one |
| `MessageQueue.PartitionDistinct` | src/queue_t.c:156-234 | each accepted message is in one place only |
| `MessageQueue.RoundRobinFair` | src/list.c:216-230 | in as many pushes as there are subscribers everyone is served once |
| `Storage.SaveLoad` | src/storage.c:680-790 | saving and loading again gives the durable part of the server; the save fails exactly if a durable queue holds an empty message |
| `Storage.EmptyMessage` | src/storage.c:84-142 | a server whose save fails |
| `Storage.File.Save` | src/storage.c:739-790 | the file holds exactly the records of the durable part |
| `Storage.File.Load` | src/storage.c:680-737 | succeeds exactly on files that hold records up to an end mark, and adds exactly those |
| `Storage.File.WriteData` | src/storage.c:84-142 | a field that reads back as the data, compressed or not; only empty data fails |
| `Storage.File.ReadData` | src/storage.c:144-231 | what the field format says, with its error cases |
| `Storage.File.SaveMessages` | src/storage.c:321-342 | the messages, oldest first |
| `Storage.File.SaveQueue` | src/storage.c:344-367 | a record that reads back as the queue, reloaded |
| `Storage.File.SaveRoute` | src/storage.c:408-457 | a record that reads back as the route with all its keys |
| `Storage.File.LoadQueue` | src/storage.c:552-587 | the queue of the record, its messages pushed in order |
| `Storage.File.LoadKey` | src/storage.c:589-629 | binds the queues that exist and skips the others |
| `Storage.File.LoadRoute` | src/storage.c:631-660 | the route of the record, bound to the queues that exist |
| `StorageFormat.ReloadedIff` | src/queue_t.c:156-191 | a queue comes back as it was exactly if it was within its own limits |
| `StorageFormat.OverLimit` | src/queue_t.c:171-178 | a queue of two messages with a limit of one, as the sweep leaves it, loses a message in the store |
| `StorageFormat.RouteKept` | src/storage.c:589-660 | what is left of a route's keys is exactly their bindings to loaded queues |
| `StorageFormat.RecordsDurable` | src/storage.c:739-790 | adding the saved records to an empty server gives the durable part |
| `StorageFormat.RawBack` | src/storage.c:133-139 | a raw field reads back |
| `StorageFormat.PackedBack` | src/storage.c:91-109 | a compressed field reads back |
| `Storage.DurableQueues` | src/storage.c:321-388 | the durable queues come back unchanged exactly if each was within its limits |
| `Request.Client.Receive` | src/handlers.c:1966-2089 | the frames sent, cut into reads in any way, are dispatched exactly, in order and byte for byte, if and only if no read ends inside a header; and then something is written past the request buffer if and only if some frame is too tight for it |
| `Request.OverrunFrames` | src/handlers.c:1994-2038 | frames overrun the buffer exactly if the body of one fits into it without its header, the buffer being what the bodies before made it |
| `Request.OverrunConcat` | src/handlers.c:1994-2046 | size of the buffer and overrun do not depend on how the bytes are cut into reads |
| `Request.PastTheEnd` | src/handlers.c:1994-1997 | a body of exactly the buffer's size is dispatched with eight octets past the end |
| `Request.Client.ReadRequest` | src/handlers.c:2059-2089 | one read dispatches the frames it completes and holds the rest; the bytes dispatched and held never exceed the bytes read |
| `Request.Client.Process` | src/handlers.c:1966-2057 | the same over the loop |
| `Request.Client.StepHeader` | src/handlers.c:1971-2020 | a frame is taken, held or refused |
| `Request.Client.StepBody` | src/handlers.c:2021-2046 | an unfinished frame is completed or grows |
| `Request.SplitHeader` | src/handlers.c:1973-1976 | a concrete frame that is lost when its header is cut in two |
| `Request.SplitConcat` | src/handlers.c:1966-2057 | later bytes only continue the unfinished frame |
| `Request.FramesBack` | src/handlers.c:1966-2057 | the frames of a concatenation of frames are those frames |
| `Broker.Server.Declare` | src/handlers.c:592-603 | adds exactly the pair on both sides, unless it is there |
| `Broker.Server.Subscribe` | src/handlers.c:982-993 | only for a declared client, once, on the list asked for |
| `Broker.Server.Unsubscribe` | src/queue_t.c:303-326 | removes exactly the pair from the client and from whichever list has it |
| `Broker.Server.Undeclare` | src/queue_t.c:286-290 | removes exactly the pair on both sides |
| `Broker.Server.UnsubscribeCommand` | src/handlers.c:998-1034 | succeeds exactly for a subscriber and keeps every invariant |
| `Broker.Server.Bind` | src/route_t.c:126-150 | adds exactly the binding on both sides |
| `Broker.Server.Unbind` | src/route_t.c:152-178 | removes exactly the binding; an auto-delete route goes with its last one |
| `Broker.Server.UnbindCommand` | src/handlers.c:1360-1402 | success exactly if route, queue and key exist, not found exactly if route or queue is missing; the binding is gone and every invariant kept |
| `Broker.Server.DeleteRoute` | src/route_t.c:73-80 | no queue mentions the route any more |
| `Broker.Server.DeleteRouteCommand` | src/handlers.c:1458-1491 | the same behind the look-up, keeping every invariant |
| `Broker.Server.EjectRoutes` | src/queue_t.c:457-482 | no route leads to the queue any more; exactly the auto-delete routes that lost their last binding go |
| `Broker.Server.DeleteQueue` | src/queue_t.c:94-110 | no client and no route mentions the queue any more, everything else stays |
| `Broker.Server.Listen` | src/channel_t.c:162-259 | adds exactly the subscription to topic or pattern on both sides |
| `Broker.Server.Unlisten` | src/channel_t.c:187-317 | removes exactly the subscription; an auto-delete channel goes with its last listener |
| `Broker.Server.UnlistenCommand` | src/handlers.c:1750-1816 | not found for a missing channel, success for a known topic, and both answers in a row for an unknown one; the subscription is gone and every invariant kept |
| `Broker.Server.DeleteChannel` | src/channel_t.c:74-82 | no client listens to the channel any more |
| `Broker.Server.DeleteChannelCommand` | src/handlers.c:1818-1852 | the same behind the look-up, keeping every invariant |
| `Broker.Server.EjectListeners` | src/channel_t.c:319-353 | all listeners of one kind go, the other kind stays |
| `Broker.Server.UndeclareAndProcess` | src/handlers.c:90-96 | the last client takes an auto-delete queue along, and it its auto-delete routes |
| `Broker.Server.Disconnect` | src/handlers.c:2213-2237 | nothing mentions the client any more; exactly the auto-delete queues, routes and channels that lost their last user go; everything else stays |
| `Broker.Server.FlushQueues` | src/handlers.c:156-166 | no queue and no binding is left; exactly the auto-delete routes that had bindings go |
| `Broker.Server.Connect` | src/handlers.c:2175-2211 | a client starts with nothing |
| `Broker.Server.CreateQueue` | src/queue_t.c:53-92 | a queue starts with nothing |
| `Broker.Server.CreateRoute` | src/route_t.c:47-71 | a route starts with nothing |
| `Broker.Server.CreateChannel` | src/channel_t.c:44-72 | a channel starts with nothing |
| `Broker.DeclaredExist` | src/queue_t.c:280-290 | whoever and whatever is in a declaration exists, on both sides |
| `Broker.SubscribedExist` | src/queue_t.c:292-326 | the same for queue subscriptions |
| `Broker.BoundExist` | src/route_t.c:126-178 | the same for bindings |
| `Broker.HeardExist` | src/channel_t.c:207-317 | the same for channel subscriptions |
| `Indices.LinkHas` | src/queue_t.c:328-346 | linking adds exactly the entry and keeps key lists free of duplicates and empty keys |
| `Indices.UnlinkHas` | src/queue_t.c:348-362 | unlinking removes exactly the entry and the key if it was the last |

## Left out

- Sockets, the event loop, timers, signals, fork and logging: a read is a chunk of bytes, a file a byte sequence, and writing to it succeeds.
- `arena_purge`, zero-filling and the zeroed flags, statistics, `mmap` and `sbrk`: whether a chunk can be mapped is a parameter. Sizes in `Arena` are pages and chunk addresses count chunks; page maps are sequences in a map, so sharing of page-map memory is not modelled.
- `runs_avail`, `chunks_dirty`, `bin->runs` and the extent trees are ordered sets in `Arena`, `Bins` and `Extents`; that the red-black trees behave as such is what `RedBlack` proves.
- RedBlack.Insert: trees are values and a path is a sequence of frames; node addresses and the child pointers the source leaves stale are not modelled. Keys are integers. The same holds for RedBlack.Remove.
- Cuckoo.Table.Insert: the eviction loop has no bound in the source; the statement holds for any number of evictions a run is given and says nothing about a run that uses them all up. Keys are compared for equality.
- Bins.Bin.MallocStart: the run's bitmap is the flat vector that `Bitmap` proves the multi-level one to stand for. Thread caches, statistics and red zones are left out.
- Prof.StepInv: runs are followed up to the first use of something freed, not beyond. A counter whose entry was dropped from a full cache stays in the list of recently used ones, which is not modelled: which cached counter is flushed is left open instead of the least recently used one. Byte counts, `opt_prof_accum` totals, `prof_realloc` and dumping are left out; an object is released at most once at a time.
- Lzf.Compress: for a single octet the code reads the one behind it into a hash it does not use; that read is not modelled. The build modelled is the default one with 32-bit table entries and `VERY_FAST`.
- Bitmap.SetFirstUnset: groups are 64 bits wide.
- Extents.ChunkTrees.Recycle: whether `chunk_dealloc` keeps a chunk mapped is a parameter. The alignment is a power of two in the source; the model only needs a multiple of the chunk size.
- MessageQueue.Queue.SweepExpired: what the write through a freed node destroys is not modelled; `wild` records it, and nothing is promised about the queue from then on. That a purged queue is saved from a freed node on is not carried into `Storage`, which takes queues as sequences.
- MessageQueue.Queue.Push: times do not wrap, a message has an identity apart from its tag, and reference counts of payloads are left out. A queue has a positive `max_msg`, which the create command demands.
- Storage.File.ReadData: a compressed field that unpacks to fewer octets than announced is an error, where the source goes on with partly unset memory.
- Storage.EmptyMessage: the push handlers accept no empty payload, so the queue is given as it is and not built up by commands.
- Storage.File.Load: a number field of another width and a string without a terminating zero are taken as errors, where the source would go on with partly unset memory; the version is read as digits only. `link_queue_route_t` while loading is left to `Broker`.
- Request.Client.Receive: what octets written past the request buffer destroy is not modelled; the request keeps them and `overran` records the event. What happens to the buffer after a split header is left open. The DISCONNECT command, which frees the client while its request is processed, is left out.
- Broker.Server.Disconnect: objects are identified by number; names, their uniqueness checks and renaming are left out, as are permission checks. Keys of a key list are visited in no particular order. Deleting one route or channel is modelled, flushing all of them is the same repeated.
- `pattern_match_length`: matching of patterns plays no part in the indices and is left out.
- jemalloc's `ctl.c`, `stats.c`, `tcache`, `huge`, `zone.c` and option handling: configuration and reporting.
