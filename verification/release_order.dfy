/**
 * The order in which the allocator's release walk runs destructors, and how
 * many blocks a given number of objects occupies.
 *
 * Objects are identified by their serial: the k-th object created since the
 * last release has serial k. A chain of blocks is described by its fill
 * levels `fills`, oldest block first: `fills[i]` is the cursor of block i,
 * so block i holds the serials Sum(fills[..i]) up to Sum(fills[..i+1]).
 */
module ReleaseOrder {

  /** Total number of objects held by blocks with the given fill levels. */
  function Sum(fills: seq<nat>): nat
  {
    if fills == [] then 0 else Sum(fills[..|fills| - 1]) + fills[|fills| - 1]
  }

  /** The serials lo, lo + 1, ..., hi - 1, in increasing order. */
  function Range(lo: nat, hi: nat): (r: seq<nat>)
    ensures |r| == if lo <= hi then hi - lo else 0
    decreases hi
  {
    if hi <= lo then [] else Range(lo, hi - 1) + [hi - 1]
  }

  /** The i-th serial of a range is lo + i. */
  lemma {:induction false} RangeAt(lo: nat, hi: nat)
    ensures forall i :: 0 <= i < |Range(lo, hi)| ==> Range(lo, hi)[i] == lo + i
    decreases hi
  {
    if lo < hi {
      RangeAt(lo, hi - 1);
    }
  }

  /**
   * The destruction order of a full release: blocks newest first, and inside
   * each block its objects from the first slot up to the cursor, that is in
   * creation order. The order is therefore not last-in-first-out overall.
   */
  function DestructionOrder(fills: seq<nat>): seq<nat>
  {
    if fills == [] then []
    else
      var older := fills[..|fills| - 1];
      Range(Sum(older), Sum(fills)) + DestructionOrder(older)
  }

  /** The serials of block k: one per filled slot, following those of the older blocks. */
  function BlockSerials(fills: seq<nat>, k: nat): (serials: seq<nat>)
    requires k < |fills|
    ensures |serials| == fills[k]
  {
    Range(Sum(fills[..k]), Sum(fills[..k]) + fills[k])
  }

  /**
   * What the release walk as written in the source has destructed when it
   * reaches block k: the blocks newer than k, newest first. The walk stops
   * at the original block (index 0) without destructing it, so k = 0 gives
   * everything the source's release destructs.
   */
  function SourceDestructionOrder(fills: seq<nat>, k: nat): seq<nat>
    requires k < |fills|
    decreases |fills| - k
  {
    if k == |fills| - 1 then []
    else SourceDestructionOrder(fills, k + 1) + BlockSerials(fills, k + 1)
  }

  /** The fewest blocks of `size` slots that hold n objects; there is always at least one. */
  function BlocksFor(n: nat, size: nat): (blocks: nat)
    requires size >= 1
    ensures blocks >= 1
    ensures n <= blocks * size
    ensures blocks == 1 || (blocks - 1) * size < n
    decreases n
  {
    if n <= size then 1 else 1 + BlocksFor(n - size, size)
  }

  lemma {:induction false} SumOfPrefix(fills: seq<nat>, k: nat)
    requires k < |fills|
    ensures Sum(fills[..k + 1]) == Sum(fills[..k]) + fills[k]
  {
    assert fills[..k + 1][..k] == fills[..k];
  }

  lemma {:induction false} RangeSplit(lo: nat, mid: nat, hi: nat)
    requires lo <= mid <= hi
    ensures Range(lo, hi) == Range(lo, mid) + Range(mid, hi)
  {
    RangeAt(lo, hi);
    RangeAt(lo, mid);
    RangeAt(mid, hi);
    assert |Range(lo, hi)| == |Range(lo, mid) + Range(mid, hi)|;
    forall i | 0 <= i < |Range(lo, hi)|
      ensures Range(lo, hi)[i] == (Range(lo, mid) + Range(mid, hi))[i]
    {
      if i >= mid - lo {
        assert (Range(lo, mid) + Range(mid, hi))[i] == Range(mid, hi)[i - (mid - lo)];
      }
    }
  }

  /** Each serial of a range occurs in it exactly once, and nothing else does. */
  lemma {:induction false} RangeCount(lo: nat, hi: nat, k: nat)
    ensures multiset(Range(lo, hi))[k] == if lo <= k < hi then 1 else 0
    decreases hi
  {
    if lo < hi {
      var top: nat := hi - 1;
      var below := Range(lo, top);
      RangeCount(lo, top, k);
      assert Range(lo, hi) == below + [top];
      assert multiset(Range(lo, hi)) == multiset(below) + multiset{top};
    } else {
      assert Range(lo, hi) == [];
    }
  }

  /** A full release destructs a permutation of the serials of all live objects. */
  lemma {:induction false} DestructionOrderIsPermutation(fills: seq<nat>)
    ensures multiset(DestructionOrder(fills)) == multiset(Range(0, Sum(fills)))
    decreases |fills|
  {
    if fills != [] {
      var older := fills[..|fills| - 1];
      DestructionOrderIsPermutation(older);
      RangeSplit(0, Sum(older), Sum(fills));
    }
  }

  /** A full release runs the destructor of every live object exactly once, and of nothing else. */
  lemma EveryObjectDestructedOnce(fills: seq<nat>, k: nat)
    ensures |DestructionOrder(fills)| == Sum(fills)
    ensures multiset(DestructionOrder(fills))[k] == if k < Sum(fills) then 1 else 0
  {
    DestructionOrderIsPermutation(fills);
    RangeCount(0, Sum(fills), k);
    assert |DestructionOrder(fills)| == |multiset(DestructionOrder(fills))|;
  }

  /**
   * Where the source's walk stands at block k, what it has destructed so far
   * followed by the full release order of blocks 0..k is the full release
   * order of the whole chain.
   */
  lemma {:induction false} SourceOrderThenRest(fills: seq<nat>, k: nat)
    requires k < |fills|
    ensures SourceDestructionOrder(fills, k) + DestructionOrder(fills[..k + 1]) == DestructionOrder(fills)
    decreases |fills| - k
  {
    if k == |fills| - 1 {
      assert fills[..k + 1] == fills;
    } else {
      var upper := fills[..k + 2];
      SourceOrderThenRest(fills, k + 1);
      assert upper[..k + 1] == fills[..k + 1];
      SumOfPrefix(fills, k + 1);
      assert DestructionOrder(upper) == BlockSerials(fills, k + 1) + DestructionOrder(fills[..k + 1]);
    }
  }

  /**
   * The source's release loop is the full release minus the original block:
   * what it destructs, followed by the original block's objects in creation
   * order, is exactly the full destruction order.
   */
  lemma SourceOrderOmitsOriginalBlock(fills: seq<nat>)
    requires |fills| >= 1
    ensures SourceDestructionOrder(fills, 0) + Range(0, fills[0]) == DestructionOrder(fills)
  {
    SourceOrderThenRest(fills, 0);
    OriginalBlockOrder(fills[..1]);
  }

  /** A chain of the original block alone is released in creation order. */
  lemma OriginalBlockOrder(original: seq<nat>)
    requires |original| == 1
    ensures DestructionOrder(original) == Range(0, original[0])
  {
    var serials := Range(0, original[0]);
    assert original[..0] == [];
    assert Sum(original) == original[0];
    assert DestructionOrder(original) == serials + DestructionOrder([]);
    assert serials + [] == serials;
  }

  /**
   * Under the source's release loop, the objects of the original block never
   * have their destructor run, whatever else the chain holds.
   */
  lemma OriginalBlockNeverDestructed(fills: seq<nat>, k: nat)
    requires |fills| >= 1 && k < fills[0]
    ensures k < Sum(fills)
    ensures multiset(SourceDestructionOrder(fills, 0))[k] == 0
  {
    SourceOrderOmitsOriginalBlock(fills);
    EveryObjectDestructedOnce(fills, k);
    RangeCount(0, fills[0], k);
  }

  lemma {:induction false} SumOfFullBlocks(fills: seq<nat>, size: nat)
    requires forall i :: 0 <= i < |fills| ==> fills[i] == size
    ensures Sum(fills) == |fills| * size
    decreases |fills|
  {
    if fills != [] {
      SumOfFullBlocks(fills[..|fills| - 1], size);
    }
  }

  lemma {:induction false} BlocksForFullPrefix(m: nat, size: nat, p: nat)
    requires size >= 1 && 1 <= p <= size
    ensures BlocksFor(m * size + p, size) == m + 1
    decreases m
  {
    if m > 0 {
      assert m * size + p - size == (m - 1) * size + p;
      BlocksForFullPrefix(m - 1, size, p);
    }
  }

  /**
   * A chain whose blocks are all full except the newest, and whose newest
   * block is empty only when it is the sole block, has exactly as many blocks
   * as its objects need.
   */
  lemma FullChainBlockCount(fills: seq<nat>, size: nat)
    requires size >= 1 && |fills| >= 1
    requires forall i :: 0 <= i < |fills| - 1 ==> fills[i] == size
    requires fills[|fills| - 1] <= size
    requires |fills| > 1 ==> fills[|fills| - 1] >= 1
    ensures BlocksFor(Sum(fills), size) == |fills|
  {
    var older := fills[..|fills| - 1];
    SumOfFullBlocks(older, size);
    if fills[|fills| - 1] >= 1 {
      BlocksForFullPrefix(|older|, size, fills[|fills| - 1]);
    }
  }
}
