/**
 * The cursor arithmetic of allocator.h and allocator.cc as written, measured
 * in slots of the typed `Object` array.
 *
 * The source adds `sizeof(Object)` to typed `Object*` pointers (the end
 * marker, the bump and the destructor walk). Pointer arithmetic on a typed
 * pointer already counts in objects, so each of these moves by
 * `sizeof(Object)` slots instead of one. The allocator model uses a stride
 * of one slot; this module records what the written stride would do.
 */
module PointerStride {

  /**
   * Where a typed pointer stands, in slots past `data`, after being advanced
   * by `sizeof(Object)` a given number of times: the end marker is
   * AsWrittenOffset(size, objectBytes), and the cursor after k creates is
   * AsWrittenOffset(k, objectBytes).
   */
  function AsWrittenOffset(steps: nat, objectBytes: nat): (offset: nat)
    ensures objectBytes >= 1 ==> offset >= steps
    ensures objectBytes == 1 ==> offset == steps
    ensures objectBytes >= 2 && steps >= 1 ==> offset > steps
  {
    var product := steps * objectBytes;
    assert objectBytes >= 2 ==> product == steps + steps * (objectBytes - 1);
    product
  }

  /**
   * The as-written full test `pos == end` is first met after exactly `size`
   * creates: the block accepts as many objects as it has slots.
   */
  lemma AsWrittenBlockHoldsSizeObjects(size: nat, objectBytes: nat, k: nat)
    requires objectBytes >= 1
    ensures AsWrittenOffset(k, objectBytes) == AsWrittenOffset(size, objectBytes) <==> k == size
    ensures k < size ==> AsWrittenOffset(k, objectBytes) < AsWrittenOffset(size, objectBytes)
  {
    if k < size {
      assert (size - k) * objectBytes >= 1;
      assert size * objectBytes == k * objectBytes + (size - k) * objectBytes;
    } else if k > size {
      assert (k - size) * objectBytes >= 1;
      assert k * objectBytes == size * objectBytes + (k - size) * objectBytes;
    }
  }

  /**
   * For any object wider than one byte and any block of at least two slots,
   * the last object the as-written block accepts is constructed at a slot
   * beyond the end of the `size`-slot array.
   */
  lemma AsWrittenStrideOverrunsBlock(size: nat, objectBytes: nat)
    requires size >= 2 && objectBytes >= 2
    ensures AsWrittenOffset(size - 1, objectBytes) < AsWrittenOffset(size, objectBytes)
    ensures AsWrittenOffset(size - 1, objectBytes) >= size
  {
    var last: nat := size - 1;
    var extra: nat := objectBytes - 2;
    AsWrittenBlockHoldsSizeObjects(size, objectBytes, last);
    var surplus: nat := last * extra;
    assert last * objectBytes == last * 2 + surplus;
  }

  /**
   * With the default 64 slots and a 4-byte `int`, the 17th create already
   * constructs past the array, while the as-written full test lets it through.
   */
  lemma IntAllocatorOverrunsAtSeventeenthCreate()
    ensures AsWrittenOffset(16, 4) == 64
    ensures AsWrittenOffset(16, 4) < AsWrittenOffset(64, 4)
  {
  }
}
