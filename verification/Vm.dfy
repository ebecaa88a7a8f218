/** Virtual memory: address ranges from a region, frames from the page allocator, and the page table
    that joins them. */
module Vm {
  import opened Common
  import opened Descriptors
  import opened Bitmap
  import opened Region
  import Paging
  import opened Memory

  /** A region the kernel can use: page aligned, within the 64-bit address space, and no larger than
      the part of it that a walk can tell apart. */
  ghost predicate RegionFits(pool: nat, count: nat) {
    pool % PAGE_SIZE == 0 && count <= FRAMES && pool + count * PAGE_SIZE < U64
  }

  /** A page of the region is allocated exactly when it is mapped. */
  ghost predicate Sync(bits: seq<bv8>, pool: nat, count: nat, keys: set<nat>) {
    count <= 8 * |bits| && forall q: nat :: q < count ==> (Bit(bits, q) <==> Vpn(Nth(pool, q)) in keys)
  }

  /** Each page of the region has a page number of its own. */
  lemma RegionPagesDiffer(pool: nat, count: nat, i: nat, j: nat)
    requires RegionFits(pool, count) && i < count && j < count
    ensures Vpn(Nth(pool, i)) == Vpn(Nth(pool, j)) <==> i == j
  {
    NthIs(pool, i);
    NthIs(pool, j);
    var b := pool / PAGE_SIZE;
    Split(pool, PAGE_SIZE);
    DivOf(0, b + i, PAGE_SIZE);
    DivOf(0, b + j, PAGE_SIZE);
    if i <= j { SameRemainder(b + i, b + j); } else { SameRemainder(b + j, b + i); }
  }

  lemma SameRemainder(x: nat, y: nat)
    requires x <= y < x + FRAMES
    ensures x % FRAMES == y % FRAMES <==> x == y
  {
    Split(x, FRAMES);
    Split(y, FRAMES);
  }

  lemma NthAdd(a: nat, i: nat, j: nat)
    ensures Nth(Nth(a, i), j) == Nth(a, i + j)
  {
    NthIs(a, i);
    NthIs(Nth(a, i), j);
    NthIs(a, i + j);
  }

  lemma {:induction false} InPageSet(pool: nat, count: nat, p: nat, n: nat, q: nat)
    requires RegionFits(pool, count) && p + n <= count && q < count
    ensures Vpn(Nth(pool, q)) in PageSet(Nth(pool, p), n) <==> p <= q < p + n
  {
    hide Vpn;
    hide Bit;
    if n > 0 {
      InPageSet(pool, count, p, n - 1, q);
      NthAdd(pool, p, n - 1);
      RegionPagesDiffer(pool, count, q, p + n - 1);
    }
  }

  /** Allocating the run and mapping its pages keeps bitmap and table in step, and so does freeing it
      and unmapping them. */
  lemma SyncChange(bits: seq<bv8>, bits': seq<bv8>, pool: nat, count: nat, keys: set<nat>, p: nat, n: nat, on: bool)
    requires RegionFits(pool, count) && Sync(bits, pool, count, keys) && p + n <= count
    requires Changed(bits, bits', p, p + n, on)
    ensures Sync(bits', pool, count, if on then keys + PageSet(Nth(pool, p), n) else keys - PageSet(Nth(pool, p), n))
  {
    forall q: nat | q < count
      ensures Bit(bits', q) <==>
              Vpn(Nth(pool, q)) in if on then keys + PageSet(Nth(pool, p), n) else keys - PageSet(Nth(pool, p), n)
    {
      InPageSet(pool, count, p, n, q);
    }
  }

  /** A run that the bitmap shows free has no mapped page. */
  lemma FreeRunIsUnmapped(bits: seq<bv8>, pool: nat, count: nat, keys: set<nat>, p: nat, n: nat, j: nat)
    requires RegionFits(pool, count) && Sync(bits, pool, count, keys) && FreeRun(bits, count, p, n) && j < n
    ensures Vpn(Nth(Nth(pool, p), j)) !in keys + PageSet(Nth(pool, p), j)
  {
    hide Vpn;
    hide Bit;
    hide Nth;
    hide PageSet;
    hide RegionFits;
    NthAdd(pool, p, j);
    InPageSet(pool, count, p, j, p + j);
    assert !Bit(bits, p + j);
  }

  // ---------- two regions ----------

  /** No page of one region has the page number of a page of the other. */
  ghost predicate PagesApart(pool: nat, count: nat, pool2: nat, count2: nat) {
    forall i: nat, j: nat :: i < count && j < count2 ==> Vpn(Nth(pool, i)) != Vpn(Nth(pool2, j))
  }

  /** Regions that do not overlap and lie together in the part of the address space that a walk can tell apart. */
  lemma DisjointRegionsApart(pool: nat, count: nat, pool2: nat, count2: nat)
    requires RegionFits(pool, count) && RegionFits(pool2, count2)
    requires pool + count * PAGE_SIZE <= pool2 && pool2 + count2 * PAGE_SIZE <= pool + FRAMES * PAGE_SIZE
    ensures PagesApart(pool, count, pool2, count2)
  {
    Split(pool, PAGE_SIZE);
    Split(pool2, PAGE_SIZE);
    var b, b2 := pool / PAGE_SIZE, pool2 / PAGE_SIZE;
    forall i: nat, j: nat | i < count && j < count2 ensures Vpn(Nth(pool, i)) != Vpn(Nth(pool2, j)) {
      NthIs(pool, i);
      NthIs(pool2, j);
      DivOf(0, b + i, PAGE_SIZE);
      DivOf(0, b2 + j, PAGE_SIZE);
      SameRemainder(b + i, b2 + j);
    }
  }

  /** The kernel's two regions: devices from KERNEL_MMIO_RANGE_START, memory right behind them. */
  lemma KernelRegionsApart()
    ensures RegionFits(0xFFFF_FFFF_9000_0000, 0x1_0000) && RegionFits(0xFFFF_FFFF_A000_0000, 0x4_0000)
    ensures PagesApart(0xFFFF_FFFF_9000_0000, 0x1_0000, 0xFFFF_FFFF_A000_0000, 0x4_0000)
  {
    DisjointRegionsApart(0xFFFF_FFFF_9000_0000, 0x1_0000, 0xFFFF_FFFF_A000_0000, 0x4_0000);
  }

  lemma {:induction false} NotInPageSet(pool: nat, count: nat, pool2: nat, count2: nat, p: nat, n: nat, q: nat)
    requires PagesApart(pool, count, pool2, count2) && p + n <= count && q < count2
    ensures Vpn(Nth(pool2, q)) !in PageSet(Nth(pool, p), n)
  {
    hide Vpn;
    if n > 0 {
      NotInPageSet(pool, count, pool2, count2, p, n - 1, q);
      NthAdd(pool, p, n - 1);
    }
  }

  /** What one region maps or unmaps of its own leaves the other in step. */
  lemma OtherInStep(pool: nat, count: nat, bits: seq<bv8>, pool2: nat, count2: nat, keys: set<nat>, p: nat, n: nat)
    requires PagesApart(pool, count, pool2, count2) && Sync(bits, pool2, count2, keys) && p + n <= count
    ensures Sync(bits, pool2, count2, keys + PageSet(Nth(pool, p), n))
    ensures Sync(bits, pool2, count2, keys - PageSet(Nth(pool, p), n))
  {
    hide Vpn;
    hide Bit;
    forall q: nat | q < count2 ensures Vpn(Nth(pool2, q)) !in PageSet(Nth(pool, p), n) {
      NotInPageSet(pool, count, pool2, count2, p, n, q);
    }
  }

  // ---------- sizes that do not match ----------

  /** Unmapping m pages of a range recorded with n: no page is left out, and none of the excess is the region's. */
  ghost predicate Matches(pool: nat, count: nat, va: nat, n: nat, m: nat) {
    n <= m && forall j: nat, q: nat :: n <= j < m && q < count ==> Vpn(Nth(va, j)) != Vpn(Nth(pool, q))
  }

  lemma {:induction false} PageSetHas(va: nat, n: nat, j: nat)
    requires j < n
    ensures Vpn(Nth(va, j)) in PageSet(va, n)
  {
    hide Vpn;
    if j < n - 1 { PageSetHas(va, n - 1, j); }
  }

  lemma {:induction false} PageSetGrows(va: nat, n: nat, m: nat)
    requires n <= m
    ensures PageSet(va, n) <= PageSet(va, m)
  {
    hide Vpn;
    if n < m { PageSetGrows(va, n, m - 1); }
  }

  lemma {:induction false} ExcessOutside(pool: nat, count: nat, va: nat, n: nat, m: nat, q: nat)
    requires Matches(pool, count, va, n, m) && q < count
    ensures Vpn(Nth(pool, q)) in PageSet(va, m) <==> Vpn(Nth(pool, q)) in PageSet(va, n)
    decreases m
  {
    hide Vpn;
    if n < m { ExcessOutside(pool, count, va, n, m - 1, q); }
  }

  lemma {:induction false} PresentAt(flat: map<nat, Leaf>, va: nat, m: nat, j: nat)
    requires AllPresent(flat, va, m) && j < m
    ensures Vpn(Nth(va, j)) in flat && Vpn(Nth(va, j)) !in PageSet(va, j)
  {
    hide Vpn;
    UnmappedKeys(flat, va, m - 1);
    if j < m - 1 { PresentAt(flat, va, m - 1, j); }
  }

  lemma MatchKeepsStep(bits: seq<bv8>, bits': seq<bv8>, pool: nat, count: nat, keys: set<nat>, p: nat, n: nat, m: nat)
    requires RegionFits(pool, count) && Sync(bits, pool, count, keys) && p + n <= count
    requires Changed(bits, bits', p, p + n, false) && Matches(pool, count, Nth(pool, p), n, m)
    ensures Sync(bits', pool, count, keys - PageSet(Nth(pool, p), m))
  {
    hide Vpn;
    hide Bit;
    hide Matches;
    SyncChange(bits, bits', pool, count, keys, p, n, false);
    forall q: nat | q < count ensures Bit(bits', q) <==> Vpn(Nth(pool, q)) in keys - PageSet(Nth(pool, p), m) {
      ExcessOutside(pool, count, Nth(pool, p), n, m, q);
      assert Bit(bits', q) <==> Vpn(Nth(pool, q)) in keys - PageSet(Nth(pool, p), n);
    }
  }

  /** A page of the range is forgotten by the bitmap and still mapped. */
  lemma TooShort(bits: seq<bv8>, bits': seq<bv8>, pool: nat, count: nat, keys: set<nat>, p: nat, n: nat, m: nat)
    requires RegionFits(pool, count) && Sync(bits, pool, count, keys) && p + n <= count && m < n
    requires Changed(bits, bits', p, p + n, false) && forall q: nat :: p <= q < p + n ==> Bit(bits, q)
    ensures !Sync(bits', pool, count, keys - PageSet(Nth(pool, p), m))
  {
    hide Vpn;
    hide Bit;
    InPageSet(pool, count, p, m, p + m);
    assert Bit(bits, p + m) && !Bit(bits', p + m);
  }

  /** A page of another range is unmapped and still in the bitmap. */
  lemma TooLong(bits: seq<bv8>, bits': seq<bv8>, pool: nat, count: nat, flat: map<nat, Leaf>, p: nat, n: nat, m: nat,
                j: nat, q: nat)
    requires RegionFits(pool, count) && Sync(bits, pool, count, flat.Keys) && p + n <= count
    requires Changed(bits, bits', p, p + n, false) && AllPresent(flat, Nth(pool, p), m)
    requires n <= j < m && q < count && Vpn(Nth(Nth(pool, p), j)) == Vpn(Nth(pool, q))
    ensures !Sync(bits', pool, count, flat.Keys - PageSet(Nth(pool, p), m))
  {
    hide Vpn;
    hide Bit;
    var va := Nth(pool, p);
    PresentAt(flat, va, m, j);
    PageSetHas(va, m, j);
    PageSetGrows(va, n, j);
    InPageSet(pool, count, p, n, q);
    assert Bit(bits, q) && Bit(bits', q);
  }

  /** Region and table stay in step exactly when the size matches the record. */
  lemma StepIffMatches(bits: seq<bv8>, bits': seq<bv8>, pool: nat, count: nat, flat: map<nat, Leaf>, p: nat, n: nat,
                       m: nat)
    requires RegionFits(pool, count) && Sync(bits, pool, count, flat.Keys) && p + n <= count
    requires Changed(bits, bits', p, p + n, false) && AllPresent(flat, Nth(pool, p), m)
    requires forall q: nat :: p <= q < p + n ==> Bit(bits, q)
    ensures Sync(bits', pool, count, flat.Keys - PageSet(Nth(pool, p), m)) <==> Matches(pool, count, Nth(pool, p), n, m)
  {
    hide Vpn;
    hide Bit;
    hide Sync;
    hide Changed;
    if Matches(pool, count, Nth(pool, p), n, m) {
      MatchKeepsStep(bits, bits', pool, count, flat.Keys, p, n, m);
    } else if m < n {
      TooShort(bits, bits', pool, count, flat.Keys, p, n, m);
    } else {
      var j: nat, q: nat :| n <= j < m && q < count && Vpn(Nth(Nth(pool, p), j)) == Vpn(Nth(pool, q));
      TooLong(bits, bits', pool, count, flat, p, n, m, j, q);
    }
  }

  // ---------- frames that vm_alloc obtained ----------

  /** owned: the pages vm_alloc mapped and their frames.  No two share a frame, and no frame is free or
      a table. */
  ghost predicate OwnedOk(owned: map<nat, nat>, flat: map<nat, Leaf>, out: set<nat>) {
    && (forall v :: v in owned ==> v in flat && flat[v].frame == owned[v] && owned[v] in out)
    && (forall v, w :: v in owned && w in owned && owned[v] == owned[w] ==> v == w)
  }

  lemma OwnedAdd(owned: map<nat, nat>, flat: map<nat, Leaf>, out: set<nat>, v: nat, q: nat, e: Leaf,
                 a: Attrs)
    requires OwnedOk(owned, flat, out) && v !in flat && q !in out && e.frame == q && Carries(e, a)
    ensures OwnedOk(owned[v := q], flat[v := e], out + {q})
    ensures Grew(flat, flat[v := e], owned, owned[v := q], {v}, a)
  {
  }

  lemma OwnedKept(owned: map<nat, nat>, flat: map<nat, Leaf>, flat': map<nat, Leaf>, out: set<nat>, gone: set<nat>)
    requires OwnedOk(owned, flat, out)
    requires forall v :: v in flat && v !in gone ==> v in flat' && flat'[v] == flat[v]
    ensures OwnedOk(owned - gone, flat', out)
  {
  }

  /** What the hardware sees: two pages from vm_alloc never reach one frame, and neither reaches a table or a
      free page. */
  lemma FramesNeverShared(hhdm: nat, ram: Paging.Ram, head: nat, free: seq<nat>, tables: map<Paging.Key, nat>,
                          out: set<nat>,
                          flat: map<nat, Leaf>, owned: map<nat, nat>, va: nat, wa: nat)
    requires Sound(hhdm, ram, head, free, tables, out, flat) && OwnedOk(owned, flat, out)
    requires Vpn(va) in owned && Vpn(wa) in owned && Vpn(va) != Vpn(wa)
    ensures Paging.ROOT in tables
    ensures var x, y := Paging.Translate(ram, tables[Paging.ROOT], va), Paging.Translate(ram, tables[Paging.ROOT], wa);
            && x.Some? && y.Some? && x.value.frame != y.value.frame
            && x.value.frame !in tables.Values && x.value.frame !in free
  {
    hide Paging.TreeOk;
    hide Vpn;
    hide Paging.Translate;
    RootThere(ram, tables, flat);
    Paging.TranslateIsFlat(ram, tables, flat, va);
    Paging.TranslateIsFlat(ram, tables, flat, wa);
  }

  lemma RootThere(ram: Paging.Ram, tables: map<Paging.Key, nat>, flat: map<nat, Leaf>)
    requires Paging.TreeOk(ram, tables, flat)
    ensures Paging.ROOT in tables
  {
  }

  /** Two regions with storage and pages of their own. */
  ghost predicate Apart(a: VMRegion, b: VMRegion) {
    && a.allocator.bitmap != b.allocator.bitmap && a.allocations != b.allocations
    && a.allocator.bitmap as object != b.allocations && a.allocations as object != b.allocator.bitmap
    && PagesApart(a.allocator.pool, a.allocator.pageCount, b.allocator.pool, b.allocator.pageCount)
  }

  /** va is the lowest run of n pages that the bitmap showed free. */
  ghost predicate LowestRun(bits: seq<bv8>, pool: nat, count: nat, va: nat, n: nat) {
    exists p: nat :: FirstFreeRun(bits, count, p, n) && va == Nth(pool, p)
  }

  /** Fewer pages are free than these frames and the tables that the lowest free run of n pages needs. */
  ghost predicate PagesShort(free: nat, keys: set<Paging.Key>, bits: seq<bv8>, pool: nat, count: nat, n: nat,
                             frames: nat) {
    exists va :: LowestRun(bits, pool, count, va, n) && free < frames + Needed(keys, va, n)
  }

  lemma ShortAt(free: nat, keys: set<Paging.Key>, bits: seq<bv8>, pool: nat, count: nat, p: nat, n: nat, frames: nat)
    requires FirstFreeRun(bits, count, p, n)
    ensures LowestRun(bits, pool, count, Nth(pool, p), n)
    ensures PagesShort(free, keys, bits, pool, count, n, frames) <==> free < frames + Needed(keys, Nth(pool, p), n)
  {
    hide Bit;
    hide Needed;
    hide Nth;
    forall va | LowestRun(bits, pool, count, va, n) ensures va == Nth(pool, p) {
      var q: nat :| FirstFreeRun(bits, count, q, n) && va == Nth(pool, q);
    }
  }

  lemma NoneYet(flat: map<nat, Leaf>, owned: map<nat, nat>, va: nat, a: Attrs)
    ensures Paths(va, 0) == {} && Nth(va, 0) == va && Grew(flat, flat, owned, owned, PageSet(va, 0), a)
  {
  }

  lemma GrewNext(flat: map<nat, Leaf>, flat1: map<nat, Leaf>, flat2: map<nat, Leaf>,
                 owned: map<nat, nat>, owned1: map<nat, nat>, owned2: map<nat, nat>, va: nat, j: nat, a: Attrs)
    requires Grew(flat, flat1, owned, owned1, PageSet(va, j), a)
    requires Grew(flat1, flat2, owned1, owned2, {Vpn(Nth(va, j))}, a)
    ensures Grew(flat, flat2, owned, owned2, PageSet(va, j + 1), a)
  {
    hide Vpn;
    hide Carries;
  }

  lemma StillFree(flat: map<nat, Leaf>, flat1: map<nat, Leaf>, owned: map<nat, nat>, owned1: map<nat, nat>,
                  start: nat, j: nat, n: nat, a: Attrs)
    requires Placeable(flat.Keys, start, n) && j < n && Grew(flat, flat1, owned, owned1, PageSet(start, j), a)
    ensures var va := Nth(start, j); va % PAGE_SIZE == 0 && va + PAGE_SIZE < U64 && Vpn(va) !in flat1
  {
    hide Vpn;
    hide Nth;
    assert PlaceableAt(flat.Keys, start, j);
  }

  lemma PaidNext(pages: nat, free: nat, free': nat, keys: set<Paging.Key>, va: nat, j: nat)
    requires free + j + Needed(keys, va, j) == pages
    requires free' + 1 + |Path(Vpn(Nth(va, j))) - (keys + Paths(va, j))| == free
    ensures free' + (j + 1) + Needed(keys, va, j + 1) == pages
    ensures keys + Paths(va, j) + Path(Vpn(Nth(va, j))) == keys + Paths(va, j + 1)
  {
    NeededStep(keys, va, j);
  }

  lemma PaidShort(pages: nat, free: nat, keys: set<Paging.Key>, va: nat, j: nat, n: nat)
    requires j < n && free + j + Needed(keys, va, j) == pages
    requires free < 1 + |Path(Vpn(Nth(va, j))) - (keys + Paths(va, j))|
    ensures pages < n + Needed(keys, va, n)
  {
    NeededStep(keys, va, j);
    NeededGrows(keys, va, j + 1, n);
  }

  /** With no page of the call mapped, what counts is the tables that all its pages need. */
  lemma AllShort(free: nat, keys: set<Paging.Key>, flat: map<nat, Leaf>, va: nat, pa: nat, a: Attrs, n: nat)
    requires AllFresh(flat, va, pa, a, n)
    ensures ShortOf(free, keys, flat, va, pa, a, n) <==> free < Needed(keys, va, n)
  {
    hide Needed;
    hide AllFresh;
    forall j: nat | j <= n ensures Needed(keys, va, j) <= Needed(keys, va, n) {
      NeededGrows(keys, va, j, n);
    }
  }

  lemma OneShort(free: int, keys: set<Paging.Key>, flat: map<nat, Leaf>, va: nat, pa: nat, a: Attrs)
    requires Vpn(va) !in flat
    ensures Paths(va, 1) == Path(Vpn(va)) && Needed(keys, va, 1) == |Path(Vpn(va)) - keys|
    ensures 0 <= free ==> (ShortOf(free, keys, flat, va, pa, a, 1) <==> free < |Path(Vpn(va)) - keys|)
  {
    hide Path;
    assert Paths(va, 0) == {} && Nth(va, 0) == va;
    assert Paths(va, 1) == Path(Vpn(va));
    assert MapPages(flat, va, pa, 0, a) == flat && AllFresh(flat, va, pa, a, 0);
    if 0 <= free { AllShort(free, keys, flat, va, pa, a, 1); }
  }

  datatype VmResult = Stopped | Invalid | NoMemory | Done(va: nat)

  class Manager {
    const kernel: Kernel

    /** The pages obtained from vm_alloc and still mapped, with their frames. */
    ghost var owned: map<nat, nat>

    constructor (k: Kernel)
      ensures kernel == k && owned == map[]
    {
      kernel, owned := k, map[];
    }

    ghost predicate Valid()
      reads this, kernel
    {
      kernel.Valid() && OwnedOk(owned, kernel.flat, kernel.out)
    }

    /** The region's own consistency, and its agreement with the page table. */
    ghost predicate InStep(region: VMRegion)
      reads kernel, region.allocator.bitmap, region.allocations
    {
      && region.Valid() && RegionFits(region.allocator.pool, region.allocator.pageCount)
      && region.allocator.bitmap as object != kernel && region.allocations as object != kernel
      && Sync(region.allocator.bitmap[..], region.allocator.pool, region.allocator.pageCount, kernel.flat.Keys)
    }

    /** So many pages handed out, and exactly the missing ones of these tables added, each from the free stack. */
    ghost predicate Paid(before: set<Paging.Key>, pages: nat, path: set<Paging.Key>, n: nat)
      reads kernel
    {
      kernel.tables.Keys == before + path && |kernel.free| + n + |path - before| == pages
    }

    /** One round of vm_alloc's loop: a frame for the page at va, which is not mapped. */
    method AllocPage(va: nat, a: Attrs) returns (stopped: bool)
      requires Valid() && AttrsOk(a) && va % PAGE_SIZE == 0 && va + PAGE_SIZE < U64 && Vpn(va) !in kernel.flat
      modifies kernel, this`owned
      ensures stopped <==> |old(kernel.free)| < 1 + |Path(Vpn(va)) - old(kernel.tables).Keys|
      ensures !stopped ==> Paid(old(kernel.tables).Keys, |old(kernel.free)|, Path(Vpn(va)), 1)
      ensures !stopped ==> Valid() && Grew(old(kernel.flat), kernel.flat, old(owned), owned, {Vpn(va)}, a)
    {
      hide Grew;
      hide Carries;
      hide RangeGranted;
      hide AllFresh;
      hide MapPages;
      hide Vpn;
      hide LeafFor;
      hide Path;
      hide Paths;
      hide Needed;
      hide ShortOf;
      hide OwnedOk;
      hide Sound;
      kernel.Basics();
      var page := kernel.KmemAlloc();
      if page.None? {
        return true;
      }
      ghost var q := old(kernel.free)[0];
      var pa := page.value - kernel.hhdm;
      FrameOfVirt(kernel.hhdm, q);
      OneFrame(q, a);
      OwnedAdd(owned, kernel.flat, old(kernel.out), Vpn(va), q, LeafFor(pa, a), a);
      var r := kernel.Map(va, pa, PAGE_SIZE, a);
      OnePage(old(kernel.flat), va, pa, a);
      OneShort(|old(kernel.free)| - 1, old(kernel.tables).Keys, old(kernel.flat), va, pa, a);
      if r != Ok {
        return true;
      }
      owned := owned[Vpn(va) := q];
      return false;
    }

    /** vm_alloc's loop over n pages from `start`, none of them mapped. */
    method AllocPages(start: nat, n: nat, a: Attrs) returns (stopped: bool)
      requires Valid() && AttrsOk(a) && Placeable(kernel.flat.Keys, start, n)
      modifies kernel, this`owned
      ensures stopped <==> |old(kernel.free)| < n + Needed(old(kernel.tables).Keys, start, n)
      ensures !stopped ==> Valid() && Grew(old(kernel.flat), kernel.flat, old(owned), owned, PageSet(start, n), a)
    {
      hide Sound;
      hide OwnedOk;
      hide Vpn;
      hide Bit;
      hide Path;
      hide Paths;
      hide PageSet;
      hide Nth;
      hide Grew;
      hide Placeable;
      NoneYet(kernel.flat, owned, start, a);
      ghost var keys, pages := kernel.tables.Keys, |kernel.free|;
      var va, page := start, 0;
      while page < n
        invariant page <= n && va == Nth(start, page) && Valid()
        invariant Paid(keys, pages, Paths(start, page), page)
        invariant Grew(old(kernel.flat), kernel.flat, old(owned), owned, PageSet(start, page), a)
      {
        StillFree(old(kernel.flat), kernel.flat, old(owned), owned, start, page, n, a);
        ghost var left, flat1, owned1 := |kernel.free|, kernel.flat, owned;
        stopped := AllocPage(va, a);
        if stopped {
          PaidShort(pages, left, keys, start, page, n);
          return;
        }
        PaidNext(pages, left, |kernel.free|, keys, start, page);
        GrewNext(old(kernel.flat), flat1, kernel.flat, old(owned), owned1, owned, start, page, a);
        NthNext(start, page);
        va := va + PAGE_SIZE;
        page := page + 1;
      }
      return false;
    }

    /** The region cannot give n pages: its table has no slot left, or its bitmap no run. */
    ghost predicate Exhausted(region: VMRegion, n: nat)
      requires region.allocationsSize <= region.allocations.Length
      reads region.allocator.bitmap, region.allocations
    {
      || region.Full(region.allocations[..region.allocationsSize])
      || NoFreeRun(region.allocator.bitmap[..], region.allocator.pageCount, n)
    }

    /** The free pages do not do for these frames and the tables that the lowest free run of n pages needs. */
    ghost predicate Short(region: VMRegion, n: nat, frames: nat)
      reads kernel, region.allocator.bitmap
    {
      PagesShort(|kernel.free|, kernel.tables.Keys, region.allocator.bitmap[..], region.allocator.pool,
                 region.allocator.pageCount, n, frames)
    }

    /** vm_alloc.  It stops when asked for less than a page or when physical memory runs out; it never
        meets a page that is already mapped.  `other` is any other region of the kernel. */
    method Alloc(size: nat, region: VMRegion, a: Attrs, ghost other: VMRegion) returns (r: VmResult)
      requires Valid() && InStep(region) && AttrsOk(a) && InStep(other) && Apart(region, other)
      modifies kernel, this`owned, region.allocator.bitmap, region.allocations
      ensures !r.Invalid?
      ensures r.Stopped? <==>
              || size < PAGE_SIZE
              || (!old(Exhausted(region, size / PAGE_SIZE)) && old(Short(region, size / PAGE_SIZE, size / PAGE_SIZE)))
      ensures r.NoMemory? <==> PAGE_SIZE <= size && old(Exhausted(region, size / PAGE_SIZE))
      ensures r.NoMemory? ==> kernel.flat == old(kernel.flat) && owned == old(owned)
      ensures !r.Stopped? ==> Valid() && InStep(region) && InStep(other)
      ensures r.Done? ==> Grew(old(kernel.flat), kernel.flat, old(owned), owned, PageSet(r.va, size / PAGE_SIZE), a)
      ensures r.Done? ==> Paging.ROOT in kernel.tables
      ensures r.Done? ==> RangeOwned(kernel.ram, kernel.tables[Paging.ROOT], owned, r.va, a,
                                     size / PAGE_SIZE * PAGE_SIZE)
      ensures r.Done? ==> Recorded(region.allocations[..region.allocationsSize], r.va, size / PAGE_SIZE)
      ensures r.Done? ==> LowestRun(old(region.allocator.bitmap[..]), region.allocator.pool, region.allocator.pageCount,
                                    r.va, size / PAGE_SIZE)
    {
      hide PagesShort;
      hide LowestRun;
      hide Needed;
      hide Paths;
      hide ShortOf;
      hide PageSet;
      hide Sound;
      hide OwnedOk;
      hide Vpn;
      hide Bit;
      hide Agree;
      hide RangeOwned;
      hide Paging.TreeOk;
      var n := size / PAGE_SIZE;
      ghost var bits := region.allocator.bitmap[..];
      ghost var pool, count := region.allocator.pool, region.allocator.pageCount;
      var got; ghost var p, i;
      got, p, i := region.Alloc(n);
      if got.Stopped? {
        return VmResult.Stopped;
      }
      if got.NoMemory? {
        return VmResult.NoMemory;
      }
      NthIs(pool, p);
      ShortAt(|kernel.free|, kernel.tables.Keys, bits, pool, count, p, n, n);
      FreeRunIsPlaceable(bits, pool, count, kernel.flat.Keys, p, n);
      SyncChange(bits, region.allocator.bitmap[..], pool, count, kernel.flat.Keys, p, n, true);
      OtherInStep(pool, count, other.allocator.bitmap[..], other.allocator.pool, other.allocator.pageCount,
                  kernel.flat.Keys, p, n);
      assert region.allocations[..region.allocationsSize][i] == VMAllocation(got.addr, n);
      var stopped := AllocPages(got.addr, n, a);
      if stopped {
        return VmResult.Stopped;
      }
      kernel.Basics();
      RangeInRegion(pool, count, p, n, n * PAGE_SIZE);
      GrewOwned(kernel.ram, kernel.tables, old(kernel.flat), kernel.flat, old(owned), owned, kernel.out, got.addr, n,
                a);
      return VmResult.Done(got.addr);
    }

    /** vm_map: a fresh range of the region mapped to the frames from pa.  A full region makes it stop,
        because the error pointer it got is not page aligned. */
    method Map(pa: nat, size: nat, region: VMRegion, a: Attrs, ghost other: VMRegion) returns (r: VmResult)
      requires Valid() && InStep(region) && AttrsOk(a) && size < U64 && InStep(other) && Apart(region, other)
      modifies kernel, region.allocator.bitmap, region.allocations
      ensures !r.NoMemory? && (r.Invalid? <==> size % PAGE_SIZE != 0)
      ensures r.Stopped? <==>
              && size % PAGE_SIZE == 0
              && (size == 0 || old(Exhausted(region, size / PAGE_SIZE)) || old(Short(region, size / PAGE_SIZE, 0)))
      ensures r.Invalid? || size == 0 || old(Exhausted(region, size / PAGE_SIZE)) ==> kernel.flat == old(kernel.flat)
      ensures !r.Stopped? ==> Valid() && InStep(region) && InStep(other)
      ensures r.Done? ==> Mapped(old(kernel.flat), kernel.flat, r.va, pa, a, size / PAGE_SIZE)
      ensures r.Done? ==>
                && Paging.ROOT in kernel.tables
                && RangeGranted(kernel.ram, kernel.tables[Paging.ROOT], r.va, pa, a, size)
      ensures r.Done? ==> Recorded(region.allocations[..region.allocationsSize], r.va, size / PAGE_SIZE)
      ensures r.Done? ==> LowestRun(old(region.allocator.bitmap[..]), region.allocator.pool, region.allocator.pageCount,
                                    r.va, size / PAGE_SIZE)
    {
      hide AllFresh;
      hide MapPages;
      hide Nth;
      hide Path;
      hide Placeable;
      hide PagesShort;
      hide LowestRun;
      hide Needed;
      hide Paths;
      hide ShortOf;
      hide PageSet;
      hide Sound;
      hide OwnedOk;
      hide Vpn;
      hide Bit;
      hide Agree;
      if size % PAGE_SIZE != 0 {
        return Invalid;
      }
      var n := size / PAGE_SIZE;
      ghost var bits := region.allocator.bitmap[..];
      ghost var pool, count := region.allocator.pool, region.allocator.pageCount;
      var got; ghost var p, i;
      got, p, i := region.Alloc(n);
      if got.Stopped? {
        return VmResult.Stopped;
      }
      if got.NoMemory? {
        var m := kernel.Map(U64 - 1, pa, size, a);
        assert m == Misaligned;
        return VmResult.Stopped;
      }
      ShortAt(|kernel.free|, kernel.tables.Keys, bits, pool, count, p, n, 0);
      FreeRunIsPlaceable(bits, pool, count, kernel.flat.Keys, p, n);
      SyncChange(bits, region.allocator.bitmap[..], pool, count, kernel.flat.Keys, p, n, true);
      OtherInStep(pool, count, other.allocator.bitmap[..], other.allocator.pool, other.allocator.pageCount,
                  kernel.flat.Keys, p, n);
      assert region.allocations[..region.allocationsSize][i] == VMAllocation(got.addr, n);
      RangeInRegion(pool, count, p, n, size);
      var done := MapPlaced(got.addr, pa, size, a, n);
      if !done {
        return VmResult.Stopped;
      }
      return VmResult.Done(got.addr);
    }

    /** The call of paging_map on a range that is placeable: it stops only for want of pages. */
    method MapPlaced(va: nat, pa: nat, size: nat, a: Attrs, ghost n: nat) returns (done: bool)
      requires Valid() && AttrsOk(a) && va < U64 && size < U64 && va % PAGE_SIZE == 0 && size % PAGE_SIZE == 0
      requires n == Count(va, size) && Placeable(kernel.flat.Keys, va, n)
      modifies kernel
      ensures !done <==> |old(kernel.free)| < Needed(old(kernel.tables).Keys, va, n)
      ensures done ==>
                && Valid() && Mapped(old(kernel.flat), kernel.flat, va, pa, a, n) && Paging.ROOT in kernel.tables
                && RangeGranted(kernel.ram, kernel.tables[Paging.ROOT], va, pa, a, n * PAGE_SIZE)
                && kernel.flat.Keys == old(kernel.flat).Keys + PageSet(va, n)
    {
      hide AllFresh;
      hide MapPages;
      hide Path;
      hide Placeable;
      hide Needed;
      hide ShortOf;
      hide PageSet;
      hide Sound;
      hide OwnedOk;
      PlaceableIsFresh(kernel.flat, va, pa, a, n);
      MappedKeys(kernel.flat, va, pa, a, n);
      OwnedStays(owned, kernel.flat, MapPages(kernel.flat, va, pa, n, a), kernel.out);
      ghost var keys, pages, flat := kernel.tables.Keys, |kernel.free|, kernel.flat;
      var m := kernel.Map(va, pa, size, a);
      AllShort(pages, keys, flat, va, pa, a, n);
      done := m == Ok;
    }

    /** vm_unmap.  With the size the range was allocated with it always succeeds, and region and page
        table stay in step.  The size is not compared with the record: with another one they stay in step
        exactly when no page is left out and the excess is not the region's. */
    method Unmap(va: nat, size: nat, region: VMRegion, ghost other: VMRegion) returns (r: VmResult)
      requires Valid() && InStep(region) && va < U64 && size < U64 && InStep(other) && Apart(region, other)
      modifies kernel, this`owned, region.allocator.bitmap, region.allocations
      ensures r.Invalid? <==> size % PAGE_SIZE != 0
      ensures r.Invalid? ==>
                Valid() && InStep(region) && InStep(other) && kernel.flat == old(kernel.flat) && owned == old(owned)
      ensures !r.NoMemory? && (r.Done? ==> Valid() && Unmapped(old(kernel.flat), kernel.flat, va, Count(va, size)))
      ensures va == 0 || (forall k :: 0 <= k < region.allocationsSize ==> old(region.allocations[k]).va != va)
              ==> !r.Done?
      ensures (size % PAGE_SIZE == 0
               && Recorded(old(region.allocations[..region.allocationsSize]), va, size / PAGE_SIZE)) ==>
                && r.Done? && InStep(region) && InStep(other)
                && kernel.flat == old(kernel.flat) - PageSet(va, size / PAGE_SIZE)
      ensures r.Done? ==>
                forall n :: Recorded(old(region.allocations[..region.allocationsSize]), va, n) ==>
                  (InStep(region) <==> Matches(region.allocator.pool, region.allocator.pageCount, va, n,
                                               Count(va, size)))
    {
      hide Sound;
      hide OwnedOk;
      hide Vpn;
      hide Bit;
      hide Agree;
      if size % PAGE_SIZE != 0 {
        return Invalid;
      }
      ghost var n := size / PAGE_SIZE;
      ghost var bits, slots := region.allocator.bitmap[..], region.allocations[..region.allocationsSize];
      ghost var pool, count := region.allocator.pool, region.allocator.pageCount;
      var stopped, freed; ghost var i;
      stopped, freed, i := region.Free(va);
      if stopped {
        return VmResult.Stopped;
      }
      if Recorded(slots, va, n) {
        RecordedOnce(bits, slots, pool, count, va, n, i);
        RecordedIsPresent(bits, slots, pool, count, kernel.flat, va, n);
        SyncChange(bits, region.allocator.bitmap[..], pool, count, kernel.flat.Keys, Page(va, pool), n, false);
        OtherInStep(pool, count, other.allocator.bitmap[..], other.allocator.pool, other.allocator.pageCount,
                    kernel.flat.Keys,
                    Page(va, pool), n);
      }
      var m := kernel.Unmap(va, size);
      if m != Ok {
        return VmResult.Stopped;
      }
      ghost var m' := Count(va, size);
      forall c | Recorded(slots, va, c)
        ensures Sync(region.allocator.bitmap[..], pool, count, kernel.flat.Keys) <==> Matches(pool, count, va, c, m')
      {
        RecordedOnce(bits, slots, pool, count, va, c, i);
        RecordedMatch(bits, slots, region.allocator.bitmap[..], pool, count, old(kernel.flat), va, c, m');
        UnmappedKeys(old(kernel.flat), va, m');
      }
      UnmappedKeys(old(kernel.flat), va, Count(va, size));
      OwnedKept(owned, old(kernel.flat), kernel.flat, kernel.out, PageSet(va, Count(va, size)));
      owned := owned - PageSet(va, Count(va, size));
      return VmResult.Done(va);
    }
  }

  ghost predicate Recorded(slots: seq<VMAllocation>, va: nat, n: nat) {
    va != 0 && VMAllocation(va, n) in slots
  }

  lemma RecordedOnce(bits: seq<bv8>, slots: seq<VMAllocation>, pool: nat, count: nat, va: nat, n: nat, i: nat)
    requires Agree(bits, slots, pool, count) && Recorded(slots, va, n) && i < |slots| && slots[i].va == va
    ensures slots[i].pageCount == n
  {
    hide Agree;
    var k :| 0 <= k < |slots| && slots[k] == VMAllocation(va, n);
    UniqueSlot(bits, slots, pool, count, i, k);
  }

  lemma RecordedMatch(bits: seq<bv8>, slots: seq<VMAllocation>, bits': seq<bv8>, pool: nat, count: nat,
                      flat: map<nat, Leaf>,
                      va: nat, n: nat, m: nat)
    requires Agree(bits, slots, pool, count) && RegionFits(pool, count) && Sync(bits, pool, count, flat.Keys)
    requires Recorded(slots, va, n) && Changed(bits, bits', Page(va, pool), Page(va, pool) + n, false)
             && AllPresent(flat, va, m)
    ensures Sync(bits', pool, count, flat.Keys - PageSet(va, m)) <==> Matches(pool, count, va, n, m)
  {
    hide Agree;
    hide Vpn;
    hide Bit;
    hide Sync;
    hide Matches;
    RecordedIsPresent(bits, slots, pool, count, flat, va, n);
    var k :| 0 <= k < |slots| && slots[k] == VMAllocation(va, n);
    RecordedPagesAreSet(bits, slots, pool, count, k);
    StepIffMatches(bits, bits', pool, count, flat, Page(va, pool), n, m);
  }

  lemma RangeInRegion(pool: nat, count: nat, p: nat, n: nat, size: nat)
    requires RegionFits(pool, count) && p + n <= count && size == n * PAGE_SIZE
    ensures Nth(pool, p) == pool + p * PAGE_SIZE && Nth(pool, p) % PAGE_SIZE == 0
    ensures Nth(pool, p) + size < U64 && Count(Nth(pool, p), size) == n
  {
    NthIs(pool, p);
    Split(pool, PAGE_SIZE);
    ModOf(0, pool / PAGE_SIZE + p, PAGE_SIZE);
    DivOf(0, n, PAGE_SIZE);
  }

  lemma {:induction false} PlaceableIsFresh(flat: map<nat, Leaf>, start: nat, pa: nat, a: Attrs, n: nat)
    requires Placeable(flat.Keys, start, n)
    ensures AllFresh(flat, start, pa, a, n)
  {
    hide Vpn;
    hide Bit;
    if n > 0 {
      PlaceableIsFresh(flat, start, pa, a, n - 1);
      MappedKeys(flat, start, pa, a, n - 1);
      assert PlaceableAt(flat.Keys, start, n - 1);
    }
  }

  lemma OwnedStays(owned: map<nat, nat>, flat: map<nat, Leaf>, flat': map<nat, Leaf>, out: set<nat>)
    requires OwnedOk(owned, flat, out) && flat.Keys <= flat'.Keys && forall v :: v in flat ==> flat'[v] == flat[v]
    ensures OwnedOk(owned, flat', out)
  {
  }

  /** Every page of a recorded range is mapped, so it can be unmapped without a stop. */
  lemma RecordedIsPresent(bits: seq<bv8>, slots: seq<VMAllocation>, pool: nat, count: nat, flat: map<nat, Leaf>,
                          va: nat, n: nat)
    requires Agree(bits, slots, pool, count) && RegionFits(pool, count) && Sync(bits, pool, count, flat.Keys)
    requires Recorded(slots, va, n)
    ensures pool <= va && Page(va, pool) + n <= count && va == Nth(pool, Page(va, pool))
    ensures Count(va, n * PAGE_SIZE) == n && va % PAGE_SIZE == 0 && AllPresent(flat, va, n)
  {
    var k :| 0 <= k < |slots| && slots[k] == VMAllocation(va, n);
    assert SlotOk(slots[k], pool, count);
    var p := Page(va, pool);
    Split(va - pool, PAGE_SIZE);
    RangeInRegion(pool, count, p, n, n * PAGE_SIZE);
    RecordedPagesAreSet(bits, slots, pool, count, k);
    SetRunIsPresent(bits, pool, count, flat, p, n);
  }

  lemma {:induction false} SetRunIsPresent(bits: seq<bv8>, pool: nat, count: nat, flat: map<nat, Leaf>, p: nat, n: nat)
    requires RegionFits(pool, count) && Sync(bits, pool, count, flat.Keys) && p + n <= count
    requires forall q: nat :: p <= q < p + n ==> Bit(bits, q)
    ensures AllPresent(flat, Nth(pool, p), n)
  {
    hide Vpn;
    hide Bit;
    if n > 0 {
      SetRunIsPresent(bits, pool, count, flat, p, n - 1);
      UnmappedKeys(flat, Nth(pool, p), n - 1);
      NthAdd(pool, p, n - 1);
      InPageSet(pool, count, p, n - 1, p + n - 1);
      assert Bit(bits, p + n - 1);
    }
  }

  /** Page j of the range is page aligned, below the top of the address space, and will be unmapped when
      its turn comes. */
  ghost predicate PlaceableAt(keys: set<nat>, start: nat, j: nat) {
    && Nth(start, j) % PAGE_SIZE == 0 && Nth(start, j) + PAGE_SIZE < U64
    && Vpn(Nth(start, j)) !in keys + PageSet(start, j)
  }

  ghost predicate Placeable(keys: set<nat>, start: nat, n: nat) {
    forall j: nat :: j < n ==> PlaceableAt(keys, start, j)
  }

  lemma FreeRunIsPlaceable(bits: seq<bv8>, pool: nat, count: nat, keys: set<nat>, p: nat, n: nat)
    requires RegionFits(pool, count) && Sync(bits, pool, count, keys) && FreeRun(bits, count, p, n)
    ensures Placeable(keys, Nth(pool, p), n)
  {
    hide Vpn;
    hide Bit;
    forall j: nat | j < n ensures PlaceableAt(keys, Nth(pool, p), j) {
      FreeRunIsUnmapped(bits, pool, count, keys, p, n, j);
      PageInRegion(pool, count, p, j);
    }
  }

  /** The pages in `more` are new in both maps; everything else is as it was. */
  ghost predicate Grew(flat: map<nat, Leaf>, flat': map<nat, Leaf>, owned: map<nat, nat>, owned': map<nat, nat>,
                       more: set<nat>, a: Attrs) {
    && flat'.Keys == flat.Keys + more && (forall v :: v in flat ==> flat'[v] == flat[v])
    && owned'.Keys == owned.Keys + more && (forall v :: v in owned ==> owned'[v] == owned[v])
    && (forall v :: v in more ==> v in flat' && Carries(flat'[v], a))
  }

  /** The page's entry has exactly these attributes. */
  predicate Carries(e: Leaf, a: Attrs) {
    e.attr == a.attr && e.ap == a.ap && e.sh == a.sh && e.pxn == a.pxn && e.uxn == a.uxn
  }

  /** Byte d of a range from va translates to the frame its page has from vm_alloc, with exactly these attributes. */
  ghost predicate ByteOwned(ram: Paging.Ram, root: nat, owned: map<nat, nat>, va: nat, a: Attrs, d: nat) {
    Vpn(va + d) in owned && Grants(ram, root, va + d, owned[Vpn(va + d)], a)
  }

  ghost predicate RangeOwned(ram: Paging.Ram, root: nat, owned: map<nat, nat>, va: nat, a: Attrs, size: nat) {
    forall d: nat :: d < size ==> ByteOwned(ram, root, owned, va, a, d)
  }

  lemma GrewOwned(ram: Paging.Ram, tables: map<Paging.Key, nat>, flat: map<nat, Leaf>, flat': map<nat, Leaf>,
                  owned: map<nat, nat>, owned': map<nat, nat>, out: set<nat>, va: nat, n: nat, a: Attrs)
    requires Paging.TreeOk(ram, tables, flat') && OwnedOk(owned', flat', out) && va % PAGE_SIZE == 0
    requires Grew(flat, flat', owned, owned', PageSet(va, n), a)
    ensures Paging.ROOT in tables && RangeOwned(ram, tables[Paging.ROOT], owned', va, a, n * PAGE_SIZE)
  {
    hide Grants;
    hide Vpn;
    hide PageSet;
    hide Nth;
    hide Paging.TreeOk;
    Paging.RootOf(ram, tables, flat');
    forall d: nat | d < n * PAGE_SIZE ensures ByteOwned(ram, tables[Paging.ROOT], owned', va, a, d) {
      LookupInRange(va, 0, d, a);
      InPages(va, n, d / PAGE_SIZE);
      FlatGrants(ram, tables, flat', va + d, owned'[Vpn(va + d)], a);
    }
  }

  lemma PageInRegion(pool: nat, count: nat, p: nat, j: nat)
    requires RegionFits(pool, count) && p + j < count
    ensures var va := Nth(Nth(pool, p), j); va % PAGE_SIZE == 0 && va + PAGE_SIZE < U64
  {
    NthAdd(pool, p, j);
    NthIs(pool, p + j);
    Split(pool, PAGE_SIZE);
    ModOf(0, pool / PAGE_SIZE + p + j, PAGE_SIZE);
  }

  lemma OneFrame(q: nat, a: Attrs)
    requires q < FRAMES
    ensures LeafFor(q * PAGE_SIZE, a).frame == q && Carries(LeafFor(q * PAGE_SIZE, a), a)
  {
    DivOf(0, q, PAGE_SIZE);
  }

  lemma OnePage(flat: map<nat, Leaf>, va: nat, pa: nat, a: Attrs)
    requires va + PAGE_SIZE < U64
    ensures Count(va, PAGE_SIZE) == 1 && MapPages(flat, va, pa, 1, a) == flat[Vpn(va) := LeafFor(pa, a)]
    ensures AllFresh(flat, va, pa, a, 1) <==> Vpn(va) !in flat
  {
    assert MapPages(flat, va, pa, 0, a) == flat && Nth(va, 0) == va && Nth(pa, 0) == pa;
  }
}
