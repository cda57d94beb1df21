/**
 * One block of the allocator (`Allocator_cache` in allocator.h): a slot array
 * of fixed size, a bump cursor and a link to the block allocated before it.
 *
 * Pointers into `data` are modelled as slot indices: `pos` is the index of
 * the next free slot and `end` the index one past the last slot, so the
 * source's `pos == data` reads `pos == 0` and its `end` reads `size`.
 */
module AllocatorCache {
  import opened ReleaseOrder

  class Cache<T(0)> {
    /** The block allocated immediately before this one, or null for the original block. */
    const prev: Cache?<T>
    /** The slots; the objects live in data[..pos]. */
    const data: array<T>
    /** One past the last slot. */
    const end: nat
    /** The bump cursor: the next free slot. */
    var pos: nat

    ghost predicate Valid()
      reads this
    {
      data.Length == end && pos <= end
    }

    /** A new block starts empty and linked to the given block (null by default). */
    constructor (size: nat, prev: Cache?<T> := null)
      ensures Valid()
      ensures this.prev == prev && end == size && pos == 0
      ensures fresh(data)
    {
      this.prev := prev;
      data := new T[size];
      end := size;
      pos := 0;
    }
  }

  /** A reference to a constructed object (`Object&`): a block and a slot in it. */
  datatype Ref<T(0)> = Ref(cache: Cache<T>, slot: nat)

  /**
   * A chain of blocks, oldest first, that the `prev` links describe: the
   * oldest block has no predecessor and each later block points at the one
   * before it in the sequence.
   */
  ghost predicate Linked<T(0)>(chain: seq<Cache<T>>)
  {
    |chain| >= 1 &&
    chain[0].prev == null &&
    forall i {:trigger chain[i].prev} :: 0 < i < |chain| ==> chain[i].prev == chain[i - 1]
  }

  lemma {:induction false} LinkedDistinct<T(0)>(chain: seq<Cache<T>>, i: nat, j: nat)
    requires Linked(chain) && i < j < |chain|
    ensures chain[i] != chain[j]
    decreases i
  {
    assert chain[j].prev == chain[j - 1];
    if i > 0 {
      LinkedDistinct(chain, i - 1, j - 1);
      assert chain[i].prev == chain[i - 1];
    }
  }

  /** Following `prev` links never revisits a block: a linked chain is acyclic. */
  lemma ChainIsAcyclic<T(0)>(chain: seq<Cache<T>>)
    requires Linked(chain)
    ensures forall i, j :: 0 <= i < j < |chain| ==> chain[i] != chain[j]
  {
    forall i, j | 0 <= i < j < |chain|
      ensures chain[i] != chain[j]
    {
      LinkedDistinct(chain, i, j);
    }
  }

  /** The newest block of a linked chain is none of the older ones. */
  lemma HeadIsNotOlder<T(0)>(chain: seq<Cache<T>>)
    requires Linked(chain)
    ensures forall i :: 0 <= i < |chain| - 1 ==> chain[i] != chain[|chain| - 1]
  {
    forall i | 0 <= i < |chain| - 1
      ensures chain[i] != chain[|chain| - 1]
    {
      LinkedDistinct(chain, i, |chain| - 1);
    }
  }

  /** The cursor of every block of the chain, oldest first. */
  ghost function Fills<T(0)>(chain: seq<Cache<T>>): (fills: seq<nat>)
    reads chain
    ensures |fills| == |chain|
    ensures forall i :: 0 <= i < |chain| ==> fills[i] == chain[i].pos
  {
    seq(|chain|, i requires 0 <= i < |chain| reads chain => chain[i].pos)
  }

  /** The live objects of the chain in creation order: each block's slots up to its cursor, oldest block first. */
  ghost function Contents<T(0)>(chain: seq<Cache<T>>): (objects: seq<T>)
    reads chain, set i | 0 <= i < |chain| :: chain[i].data
    requires forall i :: 0 <= i < |chain| ==> chain[i].Valid()
    decreases |chain|
  {
    if chain == [] then []
    else
      var older := chain[..|chain| - 1];
      var newest := chain[|chain| - 1];
      assert newest.Valid();
      Contents(older) + newest.data[..newest.pos]
  }

  /** A chain holds as many objects as its cursors add up to. */
  lemma {:induction false} ContentsLength<T(0)>(chain: seq<Cache<T>>)
    requires forall i :: 0 <= i < |chain| ==> chain[i].Valid()
    ensures |Contents(chain)| == Sum(Fills(chain))
    decreases |chain|
  {
    if chain != [] {
      var older := chain[..|chain| - 1];
      ContentsLength(older);
      assert Fills(older) == Fills(chain)[..|chain| - 1];
    }
  }

  /** Appending a block appends its objects. */
  lemma ContentsSnoc<T(0)>(older: seq<Cache<T>>, newest: Cache<T>)
    requires forall i :: 0 <= i < |older| ==> older[i].Valid()
    requires newest.Valid()
    ensures Contents(older + [newest]) == Contents(older) + newest.data[..newest.pos]
  {
    assert (older + [newest])[..|older|] == older;
  }

  /**
   * The object with serial Sum(fills[..i]) + j is the one in slot j of
   * block i: serials number the objects across blocks in creation order.
   */
  lemma {:induction false} ContentsAt<T(0)>(chain: seq<Cache<T>>, i: nat, j: nat)
    requires forall k :: 0 <= k < |chain| ==> chain[k].Valid()
    requires i < |chain| && j < chain[i].pos
    ensures Sum(Fills(chain)[..i]) + j < |Contents(chain)|
    ensures Contents(chain)[Sum(Fills(chain)[..i]) + j] == chain[i].data[j]
    decreases |chain|
  {
    var older := chain[..|chain| - 1];
    assert Fills(older) == Fills(chain)[..|chain| - 1];
    if i < |chain| - 1 {
      ContentsAt(older, i, j);
      assert Fills(older)[..i] == Fills(chain)[..i];
    } else {
      ContentsLength(older);
      assert Fills(chain)[..i] == Fills(older);
    }
  }
}
