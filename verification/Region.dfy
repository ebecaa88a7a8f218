/** A region of virtual addresses: the page bitmap and the table that remembers each allocation. */
module Region {
  import opened Common
  import opened Bitmap

  datatype VMAllocation = VMAllocation(va: nat, pageCount: nat)

  const EMPTY := VMAllocation(0, 0)

  ghost function Page(va: nat, pool: nat): int { (va - pool) / PAGE_SIZE }

  ghost predicate Holds(a: VMAllocation, pool: nat, q: nat) {
    a.va != 0 && Page(a.va, pool) <= q < Page(a.va, pool) + a.pageCount
  }

  /** A slot is empty, or records a page-aligned range inside the region. */
  ghost predicate SlotOk(a: VMAllocation, pool: nat, count: nat) {
    a == EMPTY || (pool <= a.va && (a.va - pool) % PAGE_SIZE == 0 && 0 < a.pageCount
                   && Page(a.va, pool) + a.pageCount <= count)
  }

  ghost predicate SomeHolds(slots: seq<VMAllocation>, pool: nat, q: nat) {
    exists i :: 0 <= i < |slots| && Holds(slots[i], pool, q)
  }

  /** The set bits are the disjoint union of the recorded ranges. */
  ghost predicate Agree(bits: seq<bv8>, slots: seq<VMAllocation>, pool: nat, count: nat) {
    && 0 < pool && count <= 8 * |bits|
    && (forall i :: 0 <= i < |slots| ==> SlotOk(slots[i], pool, count))
    && (forall i, j, q: nat :: 0 <= i < j < |slots| && Holds(slots[i], pool, q) ==> !Holds(slots[j], pool, q))
    && (forall q: nat :: q < count ==> (Bit(bits, q) <==> SomeHolds(slots, pool, q)))
  }

  lemma RecordKeepsAgree(bits: seq<bv8>, bits': seq<bv8>, slots: seq<VMAllocation>, pool: nat, count: nat, i: nat,
                         p: nat, n: nat)
    requires Agree(bits, slots, pool, count) && i < |slots| && slots[i] == EMPTY
    requires 0 < n && FreeRun(bits, count, p, n) && Changed(bits, bits', p, p + n, true)
    ensures Agree(bits', slots[i := VMAllocation(pool + p * PAGE_SIZE, n)], pool, count)
  {
    var a := VMAllocation(pool + p * PAGE_SIZE, n);
    var slots' := slots[i := a];
    assert Page(a.va, pool) == p;
    forall q: nat | q < count ensures Bit(bits', q) <==> SomeHolds(slots', pool, q) {
      if Holds(a, pool, q) {
        assert Holds(slots'[i], pool, q);
      } else {
        SameElsewhere(slots, slots', pool, q, i);
      }
    }
    forall j, q: nat | 0 <= j < |slots| && j != i && Holds(slots[j], pool, q) ensures !Holds(a, pool, q) {
      assert SomeHolds(slots, pool, q);
    }
  }

  lemma SameElsewhere(slots: seq<VMAllocation>, slots': seq<VMAllocation>, pool: nat, q: nat, i: nat)
    requires |slots'| == |slots| && i < |slots| && slots' == slots[i := slots'[i]]
    requires !Holds(slots[i], pool, q) && !Holds(slots'[i], pool, q)
    ensures SomeHolds(slots, pool, q) <==> SomeHolds(slots', pool, q)
  {
    if k :| 0 <= k < |slots| && Holds(slots[k], pool, q) { assert Holds(slots'[k], pool, q); }
    if k :| 0 <= k < |slots| && Holds(slots'[k], pool, q) { assert Holds(slots[k], pool, q); }
  }

  lemma EraseKeepsAgree(bits: seq<bv8>, bits': seq<bv8>, slots: seq<VMAllocation>, pool: nat, count: nat, i: nat)
    requires Agree(bits, slots, pool, count) && i < |slots| && slots[i].va != 0 && SlotOk(slots[i], pool, count)
    requires Changed(bits, bits', Page(slots[i].va, pool), Page(slots[i].va, pool) + slots[i].pageCount, false)
    ensures Agree(bits', slots[i := EMPTY], pool, count)
  {
    var slots' := slots[i := EMPTY];
    forall q: nat | q < count ensures Bit(bits', q) <==> SomeHolds(slots', pool, q) {
      if Holds(slots[i], pool, q) {
        forall k | 0 <= k < |slots'| ensures !Holds(slots'[k], pool, q) {
          var a := slots[k];
          assert k == i || !Holds(a, pool, q);
        }
      } else {
        SameElsewhere(slots, slots', pool, q, i);
      }
    }
  }

  /** A recorded range can always be freed: its pages are set. */
  lemma RecordedPagesAreSet(bits: seq<bv8>, slots: seq<VMAllocation>, pool: nat, count: nat, i: nat)
    requires Agree(bits, slots, pool, count) && i < |slots| && slots[i].va != 0
    ensures forall q: nat :: Page(slots[i].va, pool) <= q < Page(slots[i].va, pool) + slots[i].pageCount ==>
            Bit(bits, q)
  {
    forall q: nat | Page(slots[i].va, pool) <= q < Page(slots[i].va, pool) + slots[i].pageCount ensures Bit(bits, q) {
      assert SlotOk(slots[i], pool, count) && Holds(slots[i], pool, q);
      assert SomeHolds(slots, pool, q);
    }
  }

  /** An address is recorded at most once. */
  lemma UniqueSlot(bits: seq<bv8>, slots: seq<VMAllocation>, pool: nat, count: nat, i: nat, k: nat)
    requires Agree(bits, slots, pool, count) && i < |slots| && k < |slots| && slots[i].va == slots[k].va != 0
    ensures i == k
  {
    assert SlotOk(slots[i], pool, count) && SlotOk(slots[k], pool, count);
    var q := Page(slots[i].va, pool);
    assert Holds(slots[i], pool, q) && Holds(slots[k], pool, q);
  }

  /** Allocating and then freeing the same range gives back every byte of the bitmap. */
  lemma AllocFreeRestores(bits: seq<bv8>, mid: seq<bv8>, after: seq<bv8>, count: nat, p: nat, n: nat)
    requires FreeRun(bits, count, p, n) && Changed(bits, mid, p, p + n, true) && Changed(mid, after, p, p + n, false)
    ensures after == bits
  {
    BytesFromBits(after, bits);
  }

  class VMRegion {
    const allocator: AllocBitMap
    const allocations: array<VMAllocation>
    const allocationsSize: nat

    ghost predicate Valid()
      reads allocator.bitmap, allocations
    {
      && allocator.bitmap as object != allocations
      && allocator.Valid() && allocationsSize <= allocations.Length
      && Agree(allocator.bitmap[..], allocations[..allocationsSize], allocator.pool, allocator.pageCount)
    }

    /** region_init over zeroed storage. */
    constructor (bytes: array<bv8>, slots: array<VMAllocation>, size: nat, pages: nat, base: nat)
      requires bytes as object != slots && pages <= 8 * bytes.Length && size <= slots.Length && 0 < base
               && base + pages * PAGE_SIZE < U64
      requires (forall k :: 0 <= k < bytes.Length ==> bytes[k] == 0)
               && (forall k :: 0 <= k < size ==> slots[k] == EMPTY)
      ensures Valid()
      ensures allocator.bitmap == bytes && allocator.pageCount == pages && allocator.pool == base
      ensures allocations == slots && allocationsSize == size
    {
      allocator := new AllocBitMap(bytes, pages, base);
      allocations, allocationsSize := slots, size;
    }

    /** region_find: the first slot recording addr. */
    method Find(addr: nat) returns (r: Option<nat>)
      requires allocationsSize <= allocations.Length
      ensures r.Some? ==> r.value < allocationsSize && allocations[r.value].va == addr
                          && forall k :: 0 <= k < r.value ==> allocations[k].va != addr
      ensures r.None? ==> forall k :: 0 <= k < allocationsSize ==> allocations[k].va != addr
    {
      for i := 0 to allocationsSize
        invariant forall k :: 0 <= k < i ==> allocations[k].va != addr
      {
        if allocations[i].va == addr {
          return Some(i);
        }
      }
      return None;
    }

    ghost predicate Full(slots: seq<VMAllocation>) {
      forall k :: 0 <= k < |slots| ==> slots[k].va != 0
    }

    /** region_alloc: a free slot and a free run, or neither is touched. */
    method Alloc(n: nat) returns (r: Outcome, ghost p: nat, ghost i: nat)
      requires Valid()
      modifies allocator.bitmap, allocations
      ensures Valid()
      ensures r.Stopped? <==> n == 0
      ensures r.NoMemory? <==>
              0 < n && (Full(old(allocations[..allocationsSize]))
                        || NoFreeRun(old(allocator.bitmap[..]), allocator.pageCount, n))
      ensures !r.Done? ==> allocator.bitmap[..] == old(allocator.bitmap[..]) && allocations[..] == old(allocations[..])
      ensures r.Done? ==>
                && r.addr == allocator.pool + p * PAGE_SIZE && 0 < r.addr
                && FirstFreeRun(old(allocator.bitmap[..]), allocator.pageCount, p, n)
                && Changed(old(allocator.bitmap[..]), allocator.bitmap[..], p, p + n, true)
                && i < allocationsSize && old(allocations[i]) == EMPTY
                && allocations[..] == old(allocations[..])[i := VMAllocation(r.addr, n)]
    {
      p, i := 0, 0;
      if n == 0 {
        r := Stopped;
        return;
      }
      var slot := Find(0);
      if slot.None? {
        r := NoMemory;
        return;
      }
      i := slot.value;
      ghost var bits, slots := allocator.bitmap[..], allocations[..allocationsSize];
      assert slots[i] == EMPTY;
      r, p := allocator.Alloc(n);
      if r.NoMemory? {
        return;
      }
      allocations[slot.value] := VMAllocation(r.addr, n);
      RecordKeepsAgree(bits, allocator.bitmap[..], slots, allocator.pool, allocator.pageCount, i, p, n);
      assert allocations[..allocationsSize] == slots[i := VMAllocation(r.addr, n)];
    }

    /** region_free: it stops exactly when addr is not a recorded allocation, and otherwise clears
        that allocation's pages and slot and nothing else. */
    method Free(addr: nat) returns (stopped: bool, count: nat, ghost i: nat)
      requires Valid()
      modifies allocator.bitmap, allocations
      ensures Valid()
      ensures stopped <==> addr == 0 || forall k :: 0 <= k < allocationsSize ==> old(allocations[k]).va != addr
      ensures stopped ==> allocator.bitmap[..] == old(allocator.bitmap[..]) && allocations[..] == old(allocations[..])
      ensures !stopped ==>
                && i < allocationsSize && old(allocations[i]) == VMAllocation(addr, count) && allocator.pool <= addr
                && allocations[..] == old(allocations[..])[i := EMPTY]
                && Changed(old(allocator.bitmap[..]), allocator.bitmap[..],
                           Page(addr, allocator.pool), Page(addr, allocator.pool) + count, false)
    {
      i := 0;
      var slot := Find(addr);
      if slot.None? {
        return true, 0, 0;
      }
      i := slot.value;
      ghost var bits, slots := allocator.bitmap[..], allocations[..allocationsSize];
      assert slots[i] == allocations[i] && SlotOk(slots[i], allocator.pool, allocator.pageCount);
      count := allocations[slot.value].pageCount;
      if addr != 0 {
        RecordedPagesAreSet(bits, slots, allocator.pool, allocator.pageCount, i);
      }
      stopped := allocator.Free(addr, count);
      if stopped {
        return;
      }
      allocations[slot.value] := EMPTY;
      EraseKeepsAgree(bits, allocator.bitmap[..], slots, allocator.pool, allocator.pageCount, i);
      assert allocations[..allocationsSize] == slots[i := EMPTY];
    }
  }
}
