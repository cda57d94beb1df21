# SimpleAllocator in Dafny

A model of the homogeneous chained-block bump allocator `Allocator<Object>`
of SimpleAllocator (allocator.h, allocator.cc), with proofs of its invariants
and of what its release operation destructs.

An allocator owns a chain of fixed-capacity blocks (`Allocator_cache`). Each
block has:

- a slot array `data` of `cache_size` objects (64 by default);
- a bump cursor `pos`;
- an end marker `end`;
- a link `prev` to the block allocated before it.

The allocator reaches the chain only through its head pointer `cache`, the
newest block.

- `create` constructs one object at the head block's cursor and advances the
  cursor by one slot. When the head block is full, it first allocates a new
  block, whose `prev` is the old head, and makes it the head.
- `empty` walks from the head to the original block. For every block with a
  predecessor, it runs the destructor of each object from the first slot up
  to the cursor, then frees the block. Finally it resets the original
  block's cursor.
- The allocator's destructor calls `empty`.

How the model is laid out:

- `AllocatorCache.Cache` is the block, a class whose array and cursor change
  in place. `prev`, `data` and `end` are never reassigned after
  construction, so they are `const`.
- `SimpleAllocator.Allocator` is the allocator. It carries two ghost fields:
  - `Chain` lists the blocks oldest first;
  - `Destructed` logs destructor calls, each one as the serial of the
    destructed object.
- A serial numbers an object by creation order since the last release: the
  k-th object has serial k.
- `Objects()` is the sequence of live objects in creation order.
- `ReleaseOrder` holds the pure functions that say which serials a release
  destructs and in which order. It also holds the lemmas about them.
- `Ref` stands for the `Object&` that `create` returns: a block and a slot.

The source cannot compile as written. The model follows its evident intent.
Each such place is marked "Source:" in a comment.

- allocator.cc:7-8 assigns `first` and `last`, which the class does not
  declare. The model creates one block and makes it the head `cache`.
- allocator.cc:25-26 constructs at and advances a bare `pos`. The model uses
  the head block's cursor `cache->pos`, which line 21 tests.
- allocator.h:33, allocator.cc:26 and allocator.cc:37 add `sizeof(Object)` to
  typed `Object*` pointers. The model moves one slot at a time. What the
  written stride does is recorded under Findings.
- allocator.cc:33-43 never destructs the objects of the original block, yet
  test.cc:47-48 expects every object destructed. `Empty` destructs them in
  creation order before the reset. `EmptyAsWritten` is the loop as written.
- test.cc:34 and test.cc:47 call the release `clear()`. The source names it
  `empty()` (allocator.cc:30), and so does main.cc:15. The model calls it
  `Empty`.

In the basic int scenario, test.cc:29 and main.cc:13 overwrite the third
object with `a + b`, and test.cc:33 asserts `c == a + b`, so
`Scenarios.IntScenario` proves the reads are 1, 2 and 3.

## Model

| member | source | states |
|---|---|---|
| AllocatorCache.Cache.constructor | allocator.h:30-34 | a new block has `size` slots between `data` and `end`, starts empty (`pos == data`), and links to the given block, null by default |
| AllocatorCache.ChainIsAcyclic | allocator.h:30-31 | following `prev` links from the head never revisits a block: the blocks of a linked chain are pairwise distinct |
| AllocatorCache.HeadIsNotOlder | allocator.cc:21-22 | the head block is none of the blocks chained before it, so constructing in it leaves the older blocks' objects alone |
| AllocatorCache.ContentsAt | allocator.cc:25-26 | the object with serial `Sum(fills[..i]) + j` is the one in slot j of block i: serials number objects across blocks in creation order |
| SimpleAllocator.Allocator.constructor | allocator.cc:5-9 | a new allocator has exactly one block; that block has no predecessor, `cache_size` slots and an empty cursor; no object is live and nothing has been destructed |
| SimpleAllocator.Allocator.Create | allocator.cc:19-28 | chains a new block exactly when the head is full; the new block's `prev` is the old head, and otherwise the chain is unchanged. The object goes to the slot the cursor pointed to, and the cursor advances by exactly one slot. Earlier objects are unchanged, the live objects gain exactly x at the end, and the allocator invariant (cursors within bounds, older blocks full, fixed capacity) is kept |
| SimpleAllocator.Allocator.ChainNewBlock | allocator.cc:21-22 | on a full head, the new head is a fresh empty block whose `prev` is the old head; it is appended to the chain and the live objects are unchanged |
| SimpleAllocator.Allocator.Construct | allocator.cc:24-27 | stores x at the old cursor, returns a reference to that slot and advances the cursor by one; earlier slots of the block are unchanged and x is appended to the live objects |
| SimpleAllocator.Allocator.DestructObjects | allocator.cc:37-38 | runs the destructors of a block's objects from slot 0 up to the cursor, in creation order, logging their serials `first .. first + pos - 1` |
| SimpleAllocator.Allocator.ReleaseNewerBlocks | allocator.cc:33-41 | the walk ends at the original block, which is the only block left and the head again; it destructs exactly `SourceDestructionOrder(fills, 0)`, the blocks with a predecessor newest first, each in creation order |
| SimpleAllocator.Allocator.Empty | allocator.cc:30-44 | afterwards exactly one block remains, the original one (no predecessor), with an empty cursor and no live objects; the log gains exactly the full `DestructionOrder` of the old fills; on an allocator holding no objects nothing changes |
| SimpleAllocator.Allocator.ResetOriginalBlock | allocator.cc:43 | with only the original block left, destructs its objects in creation order and resets its cursor to `data` |
| SimpleAllocator.Allocator.EmptyAsWritten | allocator.cc:30-44 | the release as written: leaves only the original block, with its cursor reset, and destructs only `SourceDestructionOrder(fills, 0)` |
| SimpleAllocator.Allocator.Destroy | allocator.cc:11-15 | destroying the allocator performs a full release: one block left, cursor reset, every live object destructed in the release order |
| SimpleAllocator.Allocator.NothingToRelease | allocator.cc:33-43 | an allocator holds no objects exactly when its only block is the original one and that block is empty; a release then destructs nothing |
| SimpleAllocator.Allocator.BlockCount | allocator.cc:21-22 | the chain has exactly as many blocks as its live objects need at `cache_size` per block, and at least one: blocks are chained only when the head is full |
| SimpleAllocator.Allocator.SerialLocatesSlot | allocator.cc:25-26 | the object with serial `i * cache_size + j` is in slot j of the i-th block |
| ReleaseOrder.BlocksFor | allocator.cc:21-22 | the fewest blocks of `size` slots that hold n objects: at least one, enough for n, and one fewer would not do |
| ReleaseOrder.DestructionOrderIsPermutation | allocator.cc:33-38 | a full release destructs a permutation of the serials of all live objects |
| ReleaseOrder.EveryObjectDestructedOnce | test.cc:47-48 | a full release runs the destructor of every live object exactly once and of nothing else |
| ReleaseOrder.SourceOrderThenRest | allocator.cc:33-41 | wherever the written walk stands, at block k, what it has destructed so far followed by the full release of blocks 0..k is the full release of the chain |
| ReleaseOrder.SourceOrderOmitsOriginalBlock | allocator.cc:33-43 | the written release is the full release minus the original block: its log followed by the original block's serials in creation order is the full destruction order |
| ReleaseOrder.OriginalBlockOrder | allocator.cc:37-38 | a chain of the original block alone is released in creation order |
| ReleaseOrder.OriginalBlockNeverDestructed | allocator.cc:33-43 | under the written release, no object of the original block is ever destructed, though it is live |
| ReleaseOrder.FullChainBlockCount | allocator.cc:21-22 | a chain whose older blocks are full and whose head is empty only when it is alone has exactly as many blocks as its objects need |
| PointerStride.AsWrittenOffset | allocator.h:33 | a typed pointer advanced k times by `sizeof(Object)` stands `k * sizeof(Object)` slots past `data`: at least k; exactly k for one-byte objects, and more than k for wider objects once k >= 1. This gives both the written end marker (k = size) and the written cursor after k creates |
| PointerStride.AsWrittenBlockHoldsSizeObjects | allocator.cc:21-26 | with the written stride, the full test `pos == end` is met exactly after `size` creates, and before that the cursor is below the end |
| PointerStride.AsWrittenStrideOverrunsBlock | allocator.cc:21-26 | for any object wider than one byte and any block of at least two slots, the last object the written block accepts is constructed past the array |
| PointerStride.IntAllocatorOverrunsAtSeventeenthCreate | allocator.h:33 | with 64 slots and 4-byte `int`, the 17th create constructs at slot 64, past the array, while the full test lets it through |
| Scenarios.IntScenario | test.cc:24-36 | creating 1, 2 and 5, then overwriting the third with the sum of the first two, reads back 1, 2 and 3 |
| Scenarios.CountedScenario | test.cc:39-50 | two creates of the counted type give ids 1 and 2 with a live count of 2; a release brings the live count to 0 |
| Scenarios.CountedScenarioAsWritten | test.cc:47-48 | with the release as written, the live count after the release is still 2 |
| Scenarios.ReleaseFreshScenario | allocator.cc:33-43 | releasing a fresh allocator destructs nothing |
| Scenarios.ReleaseTwiceScenario | allocator.cc:33-43 | releasing one live object destructs it; a second release right after destructs nothing |

## Left out

- Placement `new`, `malloc`/`free` and raw memory are not modelled.
  - Blocks are Dafny objects with slot arrays.
  - A destructor call is one ghost log entry holding the object's serial. No other effect of a destructor is modelled.
  - A freed block is dropped from the chain.
  - The source frees blocks obtained with `new` using `free`. It also never frees the original block, even in the destructor. Neither is modelled.
- Out-of-memory from the system allocator is not modelled: every block allocation succeeds.
- `Object data[size]` would default-construct every slot when a block is made. The model treats slots as raw storage holding Dafny default values. An object exists from `Create` on.
- `create (Args ... args)` forwards constructor arguments. The model's `Create` takes the constructed value itself. The counted type's constructor side effect (`++counter`) appears in the scenarios as a local counter. Its destructor's `counter--` is read off the destruction log.
- `cache_size` is a template argument in the source. In the model it is a per-allocator constant, `cacheSize`, fixed at construction, with default 64.
- SimpleAllocator.Allocator.constructor requires at least one slot per block. With `cache_size` 0 the source would declare a zero-length `Object data[0]`, and every create would construct past its end; the model does not describe that degenerate allocator.
- The heterogeneous (mixed-type) arena is not modelled: no source implements it.
- Console output and the `assert` calls in main.cc and test.cc are not modelled. Their scenarios become the methods of `Scenarios`.
- The header-guard typo (allocator.h:2-3) and the declaration order of `Allocator_cache` are not modelled. They carry no behaviour.
- Thread safety is not modelled: the code is single-threaded.
- Scenarios.CountedScenarioAsWritten, Scenarios.ReleaseFreshScenario and Scenarios.ReleaseTwiceScenario return ghost counts, because the destruction log they count from is ghost.

## Findings

| source | as written | input that shows it | evidently intended | confidence | as-written member | corrected member |
|---|---|---|---|---|---|---|
| allocator.cc:33-43 | the release loop destructs only the objects of blocks that have a predecessor, then resets the original block's cursor without running any destructor | `Allocator<TestObj>`, two creates, then a release. Both objects sit in the original block, so no destructor runs and the counter stays 2, where test.cc:48 expects 0 (`ReleaseOrder.OriginalBlockNeverDestructed`, `Scenarios.CountedScenarioAsWritten`) | every live object is destructed exactly once, the original block's in creation order before the reset | high; not executed | SimpleAllocator.Allocator.EmptyAsWritten | SimpleAllocator.Allocator.Empty |
| allocator.h:33 | the end marker `data + size * sizeof(Object)`, the bump `pos += sizeof(Object)` and the destructor walk add byte counts to typed `Object*` pointers, which already count in objects | `Allocator<int>` with 64 slots: the 17th create constructs at slot 64, one past the array, and the full test `pos == end` does not stop it (`PointerStride.IntAllocatorOverrunsAtSeventeenthCreate`) | a stride of one slot, with `end` at `size` slots past `data` | high; not executed | PointerStride.AsWrittenStrideOverrunsBlock | SimpleAllocator.Allocator.Create |
