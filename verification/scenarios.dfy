/**
 * The usage scenarios of test.cc and main.cc, stated against the allocator
 * model. The objects are read and written through the references that
 * `Create` returns, as the C++ does through `Object&`.
 */
module Scenarios {
  import opened ReleaseOrder
  import opened AllocatorCache
  import opened SimpleAllocator

  /**
   * An allocator of `int`: create 1, 2 and 5, then overwrite the third with
   * the sum of the first two; the reads give 1, 2 and 3 (test.cc, main.cc).
   */
  method IntScenario() returns (a: int, b: int, c: int)
    ensures a == 1 && b == 2 && c == 3
  {
    var allocator := new Allocator<int>();
    var block := allocator.cache;
    var ra := allocator.Create(1);
    assert ra == Ref(block, 0) && allocator.Chain == [block];
    var rb := allocator.Create(2);
    assert rb == Ref(block, 1) && allocator.Chain == [block];
    assert block.data[0] == 1;
    var rc := allocator.Create(5);
    assert rc == Ref(block, 2) && allocator.Chain == [block];
    assert block.data[0] == 1 && block.data[1] == 2;
    rc.cache.data[rc.slot] := ra.cache.data[ra.slot] + rb.cache.data[rb.slot];
    a, b, c := ra.cache.data[ra.slot], rb.cache.data[rb.slot], rc.cache.data[rc.slot];
    assert a == 1 && b == 2 && c == 3;
    assert allocator.Valid() && allocator.Chain == [block];
    allocator.Empty();
  }

  /** The counted object of test.cc: its id is the live count just after it is constructed. */
  datatype Counted = Counted(id: int)

  /**
   * Two creates of the counted type get ids 1 and 2 and leave two live
   * objects; a release then runs both destructors, leaving none (test.cc).
   * The live count goes up by one per create and down by one per
   * destructor run.
   */
  method CountedScenario() returns (idA: int, idB: int, liveBeforeRelease: int, ghost liveAfterRelease: int)
    ensures idA == 1 && idB == 2 && liveBeforeRelease == 2
    ensures liveAfterRelease == 0
  {
    var counter := 0;
    var allocator := new Allocator<Counted>();
    counter := counter + 1;
    var block := allocator.cache;
    var ra := allocator.Create(Counted(counter));
    assert ra == Ref(block, 0) && allocator.Chain == [block];
    counter := counter + 1;
    var rb := allocator.Create(Counted(counter));
    assert rb == Ref(block, 1) && allocator.Chain == [block];
    assert block.data[0] == Counted(1);
    idA, idB := ra.cache.data[ra.slot].id, rb.cache.data[rb.slot].id;
    liveBeforeRelease := counter;

    ghost var fills := Fills(allocator.Chain);
    assert fills == [2];
    ghost var logged := allocator.Destructed;
    allocator.Empty();
    EveryObjectDestructedOnce(fills, 0);
    liveAfterRelease := counter - (|allocator.Destructed| - |logged|);
  }

  /**
   * The same scenario with the release loop as the source writes it: the
   * two objects sit in the original block, so no destructor runs and the
   * live count stays at 2 where test.cc expects 0.
   */
  method CountedScenarioAsWritten() returns (ghost liveAfterRelease: int)
    ensures liveAfterRelease == 2
  {
    var counter := 0;
    var allocator := new Allocator<Counted>();
    counter := counter + 1;
    var ra := allocator.Create(Counted(counter));
    counter := counter + 1;
    var rb := allocator.Create(Counted(counter));

    ghost var fills := Fills(allocator.Chain);
    assert fills == [2];
    ghost var logged := allocator.Destructed;
    allocator.EmptyAsWritten();
    liveAfterRelease := counter - (|allocator.Destructed| - |logged|);
  }

  /** Releasing a fresh allocator destructs nothing. */
  method ReleaseFreshScenario() returns (ghost destructed: nat)
    ensures destructed == 0
  {
    var allocator := new Allocator<int>();
    ghost var logged := allocator.Destructed;
    allocator.Empty();
    destructed := |allocator.Destructed| - |logged|;
  }

  /** A release of one object destructs it; a second release right after destructs nothing. */
  method ReleaseTwiceScenario() returns (ghost first: nat, ghost second: nat)
    ensures first == 1 && second == 0
  {
    var allocator := new Allocator<int>();
    var r := allocator.Create(7);
    ghost var logged := allocator.Destructed;
    ghost var fills := Fills(allocator.Chain);
    assert fills == [1];
    allocator.Empty();
    EveryObjectDestructedOnce(fills, 0);
    first := |allocator.Destructed| - |logged|;

    logged := allocator.Destructed;
    assert allocator.Objects() == [];
    allocator.Empty();
    second := |allocator.Destructed| - |logged|;
  }
}
