/**
 * The homogeneous chained-block bump allocator (`Allocator<Object>` of
 * allocator.h and allocator.cc).
 *
 * The allocator reaches its blocks only through the head pointer `cache`
 * (the newest block) and the blocks' `prev` links. The ghost sequence
 * `Chain` lists the same blocks oldest first, so `Chain[0]` is the original
 * block and the last element is `cache`. Destructor calls are recorded in
 * the ghost log `Destructed` as the serials of the destructed objects (the
 * k-th object created since the last release has serial k).
 *
 * Where the source cannot compile as written, the model follows its evident
 * intent; each such place is marked "Source:" below.
 */
module SimpleAllocator {
  import opened ReleaseOrder
  import opened AllocatorCache

  /** The default number of slots per block (`cache_size`). */
  const DefaultCacheSize: nat := 64

  class Allocator<T(0)> {
    /** The head of the chain: the block that `create` bumps. */
    var cache: Cache<T>
    /** Slots per block, fixed for the allocator's lifetime. */
    const cacheSize: nat
    /** The blocks, oldest first. */
    ghost var Chain: seq<Cache<T>>
    /** The serials of the objects whose destructor has run, in the order it ran. */
    ghost var Destructed: seq<nat>

    /**
     * The chain ends at the head and is the one the `prev` links describe;
     * every block has `cacheSize` slots and a cursor within them; every block
     * but the head is full; no older block shares its slots with the head.
     */
    ghost predicate Shape()
      reads this, Chain
    {
      cacheSize >= 1 &&
      Linked(Chain) &&
      cache == Chain[|Chain| - 1] &&
      (forall i :: 0 <= i < |Chain| ==> Chain[i].Valid() && Chain[i].end == cacheSize) &&
      (forall i {:trigger Chain[i].pos} :: 0 <= i < |Chain| - 1 ==> Chain[i].pos == cacheSize) &&
      (forall i :: 0 <= i < |Chain| - 1 ==> Chain[i].data != cache.data)
    }

    /** Between operations the head is moreover empty only when it is the only block. */
    ghost predicate Valid()
      reads this, Chain
    {
      Shape() && (|Chain| > 1 ==> cache.pos >= 1)
    }

    /** The live objects, in creation order. */
    ghost function Objects(): seq<T>
      reads this, Chain, set i | 0 <= i < |Chain| :: Chain[i].data
      requires Shape()
    {
      Contents(Chain)
    }

    /**
     * A new allocator holds one empty block, the original one, with no
     * predecessor.
     * Source: allocator.cc:7-8 assigns `first` and `last`, which the class
     * does not declare; the model takes them as the single head `cache`.
     */
    constructor (cacheSize: nat := DefaultCacheSize)
      requires cacheSize >= 1
      ensures Valid() && fresh(cache) && fresh(cache.data)
      ensures this.cacheSize == cacheSize
      ensures Chain == [cache] && cache.prev == null && cache.pos == 0 && cache.end == cacheSize
      ensures Objects() == [] && Destructed == []
    {
      this.cacheSize := cacheSize;
      var first := new Cache<T>(cacheSize);
      cache := first;
      Chain := [first];
      Destructed := [];
      new;
      assert Contents(Chain) == Contents([]) + first.data[..0];
    }

    /**
     * Constructs x in the head block's next free slot and advances the
     * cursor by one slot; when the head block is full, first chains a new
     * block behind it. Nothing already constructed changes.
     */
    method Create(x: T) returns (r: Ref<T>)
      requires Valid()
      modifies this, cache, cache.data
      ensures Valid()
      ensures old(cache.pos < cache.end) ==> Chain == old(Chain) && r == Ref(old(cache), old(cache.pos))
      ensures old(cache.pos == cache.end) ==>
        fresh(cache) && fresh(cache.data) && cache.prev == old(cache) &&
        Chain == old(Chain) + [cache] && r == Ref(cache, 0)
      ensures r.cache == cache && r.slot < cacheSize && cache.pos == r.slot + 1
      ensures r.cache.data[r.slot] == x
      ensures old(cache).data[..old(cache.pos)] == old(cache.data[..cache.pos])
      ensures Objects() == old(Objects()) + [x]
      ensures Destructed == old(Destructed)
    {
      if cache.pos == cache.end {
        ChainNewBlock();
      }
      r := Construct(x);
    }

    /**
     * Chains a fresh, empty block behind the full head and makes it the
     * head; the objects are untouched.
     */
    method ChainNewBlock()
      requires Valid() && cache.pos == cache.end
      modifies this
      ensures Shape() && fresh(cache) && fresh(cache.data)
      ensures cache.prev == old(cache) && cache.pos == 0
      ensures Chain == old(Chain) + [cache]
      ensures Objects() == old(Objects())
      ensures Destructed == old(Destructed)
    {
      ghost var before := Objects();
      cache := new Cache<T>(cacheSize, cache);
      Chain := Chain + [cache];
      assert Chain[..|Chain| - 1] == old(Chain);
      assert Contents(Chain) == before + cache.data[..0];
    }

    /**
     * Constructs x in the head block's next free slot and advances the
     * cursor by one slot.
     * Source: allocator.cc:25-26 construct at and advance a bare `pos`; the
     * model takes it as `cache->pos`, the cursor that line 21 tests.
     */
    method Construct(x: T) returns (r: Ref<T>)
      requires Shape() && cache.pos < cache.end
      modifies cache, cache.data
      ensures Valid()
      ensures r == Ref(cache, old(cache.pos)) && cache.pos == old(cache.pos) + 1
      ensures cache.data[r.slot] == x
      ensures cache.data[..old(cache.pos)] == old(cache.data[..cache.pos])
      ensures Objects() == old(Objects()) + [x]
    {
      HeadIsNotOlder(Chain);
      ghost var older := Chain[..|Chain| - 1];
      ghost var head := cache.data[..cache.pos];
      assert Chain == older + [cache];
      ContentsSnoc(older, cache);
      ghost var before := Contents(older);
      assert cache !in older;
      assert cache.data !in set i | 0 <= i < |older| :: older[i].data;

      r := Ref(cache, cache.pos);
      cache.data[cache.pos] := x;
      cache.pos := cache.pos + 1;

      assert Contents(older) == before;
      assert cache.data[..cache.pos] == head + [x];
      ContentsSnoc(older, cache);
    }

    /**
     * Runs the destructor of every object of block c, from its first slot up
     * to its cursor; `first` is the serial of the object in slot 0.
     */
    method DestructObjects(c: Cache<T>, ghost first: nat)
      requires c.Valid()
      modifies this`Destructed
      ensures Destructed == old(Destructed) + Range(first, first + c.pos)
    {
      var cursor := 0;
      while cursor != c.pos
        invariant cursor <= c.pos
        invariant Destructed == old(Destructed) + Range(first, first + cursor)
        decreases c.pos - cursor
      {
        Destructed := Destructed + [first + cursor];
        cursor := cursor + 1;
      }
    }

    /**
     * The release loop of the source: walks from the head towards the
     * original block, destructing the objects of every block that has a
     * predecessor and dropping that block. Cursors are left as they were.
     */
    method ReleaseNewerBlocks()
      requires Valid()
      modifies this
      ensures Valid()
      ensures Chain == [old(Chain[0])] && cache == old(Chain[0])
      ensures Destructed == old(Destructed) + SourceDestructionOrder(old(Fills(Chain)), 0)
    {
      ghost var chain := Chain;
      ghost var fills := Fills(Chain);
      ghost var k := |Chain| - 1;
      while cache.prev != null
        invariant 0 <= k < |chain| && cache == chain[k] && Chain == chain[..k + 1]
        invariant Linked(chain)
        invariant forall i :: 0 <= i < |chain| ==> chain[i].Valid() && chain[i].end == cacheSize
        invariant Destructed == old(Destructed) + SourceDestructionOrder(fills, k)
        decreases k
      {
        assert k > 0;
        var older := cache.prev;
        ghost var done := Destructed;
        assert cache.pos == fills[k];
        DestructObjects(cache, Sum(fills[..k]));
        assert Destructed == done + BlockSerials(fills, k);
        cache := older;
        Chain := Chain[..k];
        k := k - 1;
      }
      assert k == 0;
    }

    /**
     * Releases everything: destructs every live object (blocks newest
     * first, objects in creation order within a block), drops every block
     * but the original one and resets its cursor. On an allocator that holds
     * no objects it destructs nothing and changes nothing.
     * Source: allocator.cc:33-43 never destructs the original block's
     * objects; see EmptyAsWritten for that behaviour.
     */
    method Empty()
      requires Valid()
      modifies this, Chain
      ensures Valid()
      ensures Chain == [old(Chain[0])] && cache == old(Chain[0]) && cache.pos == 0
      ensures Objects() == []
      ensures Destructed == old(Destructed) + DestructionOrder(old(Fills(Chain)))
      ensures old(Objects()) == [] ==> Chain == old(Chain) && Destructed == old(Destructed)
    {
      ghost var fills := Fills(Chain);
      NothingToRelease();
      ReleaseNewerBlocks();
      assert cache.pos == fills[0];
      ResetOriginalBlock();
      SourceOrderOmitsOriginalBlock(fills);
      assert Destructed == old(Destructed) + (SourceDestructionOrder(fills, 0) + Range(0, fills[0]));
    }

    /**
     * Destructs the objects of the original block, now the only one, in
     * creation order, and resets its cursor.
     * Source: allocator.cc:43 resets the cursor without destructing them.
     */
    method ResetOriginalBlock()
      requires Valid() && |Chain| == 1
      modifies this`Destructed, cache
      ensures Valid() && Chain == old(Chain) && cache.pos == 0 && Objects() == []
      ensures Destructed == old(Destructed) + Range(0, old(cache.pos))
    {
      DestructObjects(cache, 0);
      cache.pos := 0;
      ContentsSnoc([], cache);
    }

    /**
     * The release as the source writes it: the objects of the original
     * block are never destructed before its cursor is reset.
     */
    method EmptyAsWritten()
      requires Valid()
      modifies this, Chain
      ensures Valid()
      ensures Chain == [old(Chain[0])] && cache == old(Chain[0]) && cache.pos == 0
      ensures Objects() == []
      ensures Destructed == old(Destructed) + SourceDestructionOrder(old(Fills(Chain)), 0)
    {
      ReleaseNewerBlocks();
      cache.pos := 0;
      ContentsSnoc([], cache);
    }

    /** Destroying the allocator performs a full release. */
    method Destroy()
      requires Valid()
      modifies this, Chain
      ensures Valid()
      ensures Chain == [old(Chain[0])] && cache.pos == 0
      ensures Destructed == old(Destructed) + DestructionOrder(old(Fills(Chain)))
    {
      Empty();
    }

    /**
     * An allocator holds no objects exactly when its only block is the
     * original one and that block is empty; a release then destructs nothing.
     */
    lemma NothingToRelease()
      requires Valid()
      ensures Objects() == [] <==> |Chain| == 1 && cache.pos == 0
      ensures Objects() == [] ==> DestructionOrder(Fills(Chain)) == []
    {
      ContentsLength(Chain);
      if Objects() == [] {
        BlockCount();
        assert Fills(Chain) == [0];
      } else if |Chain| == 1 {
        assert Sum(Fills(Chain)) == Sum([]) + cache.pos;
      }
    }

    /** The chain has exactly as many blocks as the live objects need, and at least one. */
    lemma BlockCount()
      requires Valid()
      ensures |Chain| == BlocksFor(|Objects()|, cacheSize)
    {
      ContentsLength(Chain);
      FullChainBlockCount(Fills(Chain), cacheSize);
    }

    /**
     * The object with serial i * cacheSize + j, the one a release records
     * under that serial, sits in slot j of the i-th block.
     */
    lemma SerialLocatesSlot(i: nat, j: nat)
      requires Valid() && i < |Chain| && j < Chain[i].pos
      ensures Sum(Fills(Chain)[..i]) == i * cacheSize
      ensures i * cacheSize + j < |Objects()|
      ensures Objects()[i * cacheSize + j] == Chain[i].data[j]
    {
      ContentsAt(Chain, i, j);
      SumOfFullBlocks(Fills(Chain)[..i], cacheSize);
    }
  }
}
