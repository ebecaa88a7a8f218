/** Physical pages and page-table operations as the kernel performs them, in place. */
module Memory {
  import opened Common
  import opened Descriptors
  import opened Paging

  // ---------- physical and virtual addresses ----------

  /** The address at which the kernel sees frame p: physical memory is mapped from `hhdm` up. */
  function Virt(hhdm: nat, p: nat): nat { hhdm + p * PAGE_SIZE }

  function Frame(hhdm: nat, v: nat): int { (v - hhdm) / PAGE_SIZE }

  lemma FrameOfVirt(hhdm: nat, p: nat)
    ensures Frame(hhdm, Virt(hhdm, p)) == p
  {
    DivOf(0, p, PAGE_SIZE);
  }

  ghost predicate Mappable(hhdm: nat, p: nat) {
    p < FRAMES && Virt(hhdm, p) + PAGE_SIZE <= U64
  }

  // ---------- the free pages ----------

  ghost function Pointer(free: seq<nat>, i: nat, hhdm: nat): nat {
    if i < |free| then Virt(hhdm, free[i]) else 0
  }

  /** The first word of the i-th free page points at the next. */
  ghost predicate FreeLink(ram: Ram, free: seq<nat>, i: nat, hhdm: nat)
    requires i < |free|
  {
    free[i] in ram && |ram[free[i]]| == 512 && ram[free[i]][0] == Pointer(free, i + 1, hhdm)
  }

  ghost predicate FreeOk(ram: Ram, head: nat, free: seq<nat>, hhdm: nat) {
    && head == Pointer(free, 0, hhdm)
    && (forall i, j :: 0 <= i < j < |free| ==> free[i] != free[j])
    && (forall i :: 0 <= i < |free| ==> FreeLink(ram, free, i, hhdm))
  }

  /** Every page ever handed to the allocator is exactly one of: free, a table, handed out. */
  ghost predicate Partition(pages: set<nat>, free: seq<nat>, tables: map<Key, nat>, out: set<nat>) {
    && (forall p :: p in pages <==> p in free || p in tables.Values || p in out)
    && (forall p :: p in free ==> p !in tables.Values && p !in out)
    && tables.Values !! out
  }

  lemma PageFrame(ram: Ram, head: nat, free: seq<nat>, hhdm: nat, p: nat, page: seq<nat>)
    requires FreeOk(ram, head, free, hhdm) && p !in free
    ensures FreeOk(ram[p := page], head, free, hhdm)
  {
    var ram' := ram[p := page];
    forall i | 0 <= i < |free| ensures FreeLink(ram', free, i, hhdm) {
      assert FreeLink(ram, free, i, hhdm);
    }
  }

  lemma PopFree(ram: Ram, head: nat, free: seq<nat>, hhdm: nat, page: seq<nat>)
    requires FreeOk(ram, head, free, hhdm) && free != []
    ensures FreeLink(ram, free, 0, hhdm)
    ensures FreeOk(ram[free[0] := page], ram[free[0]][0], free[1..], hhdm)
  {
    var rest := free[1..];
    assert FreeLink(ram, free, 0, hhdm);
    var ram' := ram[free[0] := page];
    forall i | 0 <= i < |rest| ensures FreeLink(ram', rest, i, hhdm) {
      assert FreeLink(ram, free, i + 1, hhdm);
    }
  }

  lemma PushFree(ram: Ram, head: nat, free: seq<nat>, hhdm: nat, p: nat, page: seq<nat>)
    requires FreeOk(ram, head, free, hhdm) && p !in free && |page| == 512 && page[0] == head
    ensures FreeOk(ram[p := page], Virt(hhdm, p), [p] + free, hhdm)
  {
    var free' := [p] + free;
    var ram' := ram[p := page];
    forall i | 0 <= i < |free'| ensures FreeLink(ram', free', i, hhdm) {
      if i > 0 {
        assert FreeLink(ram, free, i - 1, hhdm);
      }
    }
  }

  /** Pages that are not tables can change without disturbing any translation. */
  lemma DataPageKeepsTree(ram: Ram, tables: map<Key, nat>, flat: map<nat, Leaf>, p: nat, page: seq<nat>)
    requires TreeOk(ram, tables, flat) && p !in tables.Values && p < FRAMES && |page| == 512
    ensures TreeOk(ram[p := page], tables, flat)
  {
    var ram' := ram[p := page];
    forall k | k in tables ensures KeyOk(ram', tables, k) {
      assert KeyOk(ram, tables, k);
    }
    forall k, i | k in tables && 0 <= i < 512 ensures EntryOk(ram', tables, flat, k, i) {
      assert KeyOk(ram, tables, k) && EntryOk(ram, tables, flat, k, i);
    }
  }

  // ---------- what a call of paging_map or paging_unmap describes ----------

  datatype Attrs = Attrs(attr: nat, ap: nat, sh: nat, pxn: nat, uxn: nat)

  predicate AttrsOk(a: Attrs) { a.attr < 8 && a.ap < 4 && a.sh < 4 && a.pxn < 2 && a.uxn < 2 }

  function LeafFor(pa: nat, a: Attrs): Leaf {
    Leaf(pa / PAGE_SIZE % FRAMES, a.attr, a.ap, a.sh, a.pxn, a.uxn)
  }

  datatype Result = Ok | Misaligned | OutOfPages | Remapped | NotMapped

  /** The pages a call covers.  The end address is a 64-bit sum: past the top of the address space it
      wraps below the start and the call covers nothing. */
  function Count(va: nat, size: nat): nat {
    if va + size < U64 then size / PAGE_SIZE else 0
  }

  /** The address j pages further on, by counting: the loops step one page at a time. */
  function Nth(a: nat, j: nat): (r: nat)
  {
    if j == 0 then a else Nth(a, j - 1) + PAGE_SIZE
  }

  lemma {:induction false} NthIs(a: nat, j: nat)
    ensures Nth(a, j) == a + j * PAGE_SIZE
  {
    if j > 0 {
      NthIs(a, j - 1);
    }
  }

  /** Counting up from va by pages, the addresses below `end` are the first n. */
  ghost predicate Covers(va: nat, end: nat, n: nat) {
    forall j: nat :: j <= n ==> (Nth(va, j) < end <==> j < n)
  }

  lemma EndIs(va: nat, size: nat)
    requires va < U64 && size < U64 && size % PAGE_SIZE == 0
    ensures Covers(va, (va + size) % U64, Count(va, size))
  {
    var n := Count(va, size);
    forall j: nat | j <= n ensures Nth(va, j) < (va + size) % U64 <==> j < n {
      NthIs(va, j);
    }
  }

  ghost function MapPages(flat: map<nat, Leaf>, va: nat, pa: nat, n: nat, a: Attrs): map<nat, Leaf> {
    if n == 0 then flat
    else MapPages(flat, va, pa, n - 1, a)[Vpn(Nth(va, n - 1)) := LeafFor(Nth(pa, n - 1), a)]
  }

  ghost function UnmapPages(flat: map<nat, Leaf>, va: nat, n: nat): map<nat, Leaf> {
    if n == 0 then flat else UnmapPages(flat, va, n - 1) - {Vpn(Nth(va, n - 1))}
  }

  /** No page of the call was mapped when its turn came. */
  ghost predicate AllFresh(flat: map<nat, Leaf>, va: nat, pa: nat, a: Attrs, n: nat) {
    n == 0 || (AllFresh(flat, va, pa, a, n - 1) && Vpn(Nth(va, n - 1)) !in MapPages(flat, va, pa, n - 1, a))
  }

  ghost predicate AllPresent(flat: map<nat, Leaf>, va: nat, n: nat) {
    n == 0 || (AllPresent(flat, va, n - 1) && Vpn(Nth(va, n - 1)) in UnmapPages(flat, va, n - 1))
  }

  lemma {:induction false} NotAllFresh(flat: map<nat, Leaf>, va: nat, pa: nat, a: Attrs, j: nat, n: nat)
    requires j < n && Vpn(Nth(va, j)) in MapPages(flat, va, pa, j, a)
    ensures !AllFresh(flat, va, pa, a, n)
  {
    if j < n - 1 {
      NotAllFresh(flat, va, pa, a, j, n - 1);
    }
  }

  lemma {:induction false} NotAllPresent(flat: map<nat, Leaf>, va: nat, j: nat, n: nat)
    requires j < n && Vpn(Nth(va, j)) !in UnmapPages(flat, va, j)
    ensures !AllPresent(flat, va, n)
  {
    if j < n - 1 {
      NotAllPresent(flat, va, j, n - 1);
    }
  }

  /** flat' is flat with n pages from va, none mapped before, mapped to the frames from pa. */
  ghost predicate Mapped(flat: map<nat, Leaf>, flat': map<nat, Leaf>, va: nat, pa: nat, a: Attrs, n: nat) {
    flat' == MapPages(flat, va, pa, n, a) && AllFresh(flat, va, pa, a, n)
  }

  ghost predicate Unmapped(flat: map<nat, Leaf>, flat': map<nat, Leaf>, va: nat, n: nat) {
    flat' == UnmapPages(flat, va, n) && AllPresent(flat, va, n)
  }

  /** The page numbers of n pages from va. */
  ghost function PageSet(va: nat, n: nat): set<nat> {
    if n == 0 then {} else PageSet(va, n - 1) + {Vpn(Nth(va, n - 1))}
  }

  /** A mapped range: every page of it has its frame, and no other page changed. */
  lemma {:induction false} MappedKeys(flat: map<nat, Leaf>, va: nat, pa: nat, a: Attrs, n: nat)
    requires AllFresh(flat, va, pa, a, n)
    ensures var m := MapPages(flat, va, pa, n, a);
            && m.Keys == flat.Keys + PageSet(va, n) && flat.Keys !! PageSet(va, n)
            && forall v :: v in flat ==> m[v] == flat[v]
  {
    if n > 0 {
      MappedKeys(flat, va, pa, a, n - 1);
    }
  }

  lemma {:induction false} MappedAt(flat: map<nat, Leaf>, va: nat, pa: nat, a: Attrs, n: nat, j: nat)
    requires j < n && AllFresh(flat, va, pa, a, n)
    ensures Vpn(Nth(va, j)) in PageSet(va, n)
    ensures var m := MapPages(flat, va, pa, n, a); Vpn(Nth(va, j)) in m && m[Vpn(Nth(va, j))] == LeafFor(Nth(pa, j), a)
  {
    MappedKeys(flat, va, pa, a, n);
    if j < n - 1 {
      MappedAt(flat, va, pa, a, n - 1, j);
      MappedKeys(flat, va, pa, a, n - 1);
    }
  }

  lemma {:induction false} UnmappedKeys(flat: map<nat, Leaf>, va: nat, n: nat)
    ensures UnmapPages(flat, va, n) == flat - PageSet(va, n)
  {
    if n > 0 {
      UnmappedKeys(flat, va, n - 1);
    }
  }

  /** Unmapping what was mapped never stops, and gives back exactly the map there was. */
  lemma UnmapUndoesMap(flat: map<nat, Leaf>, mid: map<nat, Leaf>, va: nat, pa: nat, a: Attrs, n: nat)
    requires Mapped(flat, mid, va, pa, a, n)
    ensures AllPresent(mid, va, n) && UnmapPages(mid, va, n) == flat
  {
    MappedKeys(flat, va, pa, a, n);
    UnmappedKeys(mid, va, n);
    MappedIsPresent(flat, mid, va, pa, a, n, n);
  }

  lemma {:induction false} MappedIsPresent(flat: map<nat, Leaf>, mid: map<nat, Leaf>, va: nat, pa: nat, a: Attrs,
                                           n: nat, k: nat)
    requires Mapped(flat, mid, va, pa, a, n) && k <= n
    ensures AllPresent(mid, va, k)
  {
    if k > 0 {
      MappedIsPresent(flat, mid, va, pa, a, n, k - 1);
      UnmappedKeys(mid, va, k - 1);
      MappedAt(flat, va, pa, a, n, k - 1);
      FreshPrefix(flat, va, pa, a, k, n);
      MappedKeys(flat, va, pa, a, k - 1);
    }
  }

  lemma {:induction false} FreshPrefix(flat: map<nat, Leaf>, va: nat, pa: nat, a: Attrs, j: nat, n: nat)
    requires j <= n && AllFresh(flat, va, pa, a, n)
    ensures AllFresh(flat, va, pa, a, j)
  {
    if j < n {
      FreshPrefix(flat, va, pa, a, j, n - 1);
    }
  }

  /** Byte d of a mapped range looks up to byte d of the physical range exactly when the physical
      address was page aligned and the frame number fits its 36 bits. */
  lemma LookupInRange(va: nat, pa: nat, d: nat, a: Attrs)
    requires va % PAGE_SIZE == 0
    ensures Vpn(va + d) == Vpn(Nth(va, d / PAGE_SIZE))
    ensures LeafFor(Nth(pa, d / PAGE_SIZE), a).frame * PAGE_SIZE + (va + d) % PAGE_SIZE == pa + d
            <==> pa % PAGE_SIZE == 0 && pa + d < FRAMES * PAGE_SIZE
  {
    var j, o := d / PAGE_SIZE, d % PAGE_SIZE;
    NthIs(va, j);
    NthIs(pa, j);
    Split(d, PAGE_SIZE);
    Split(va, PAGE_SIZE);
    Split(pa, PAGE_SIZE);
    DivOf(o, va / PAGE_SIZE + j, PAGE_SIZE);
    ModOf(o, va / PAGE_SIZE + j, PAGE_SIZE);
    DivOf(0, va / PAGE_SIZE + j, PAGE_SIZE);
    DivOf(pa % PAGE_SIZE, pa / PAGE_SIZE + j, PAGE_SIZE);
    FrameExact(pa / PAGE_SIZE + j, pa % PAGE_SIZE, o);
  }

  lemma FrameExact(x: nat, r: nat, o: nat)
    requires r < PAGE_SIZE && o < PAGE_SIZE
    ensures x % FRAMES * PAGE_SIZE + o == x * PAGE_SIZE + r + o <==> r == 0 && x * PAGE_SIZE + o < FRAMES * PAGE_SIZE
  {
    Split(x, FRAMES);
  }

  // ---------- what the hardware then finds ----------

  /** Address x translates to this frame with exactly these attributes, and its descriptor has them in their bits. */
  ghost predicate Grants(ram: Ram, root: nat, x: nat, frame: nat, a: Attrs) {
    && LastWord(ram, root, x).Some? && Translate(ram, root, x).Some?
    && Bits(LastWord(ram, root, x).value, frame, a.attr, a.ap, a.sh, a.pxn, a.uxn)
    && var e := Translate(ram, root, x).value;
       e.frame == frame && e.attr == a.attr && e.ap == a.ap && e.sh == a.sh && e.pxn == a.pxn && e.uxn == a.uxn
  }

  /** Byte d of a range from va that was mapped from pa. */
  ghost predicate ByteGranted(ram: Ram, root: nat, va: nat, pa: nat, a: Attrs, d: nat) {
    Grants(ram, root, va + d, (pa / PAGE_SIZE + d / PAGE_SIZE) % FRAMES, a)
  }

  ghost predicate RangeGranted(ram: Ram, root: nat, va: nat, pa: nat, a: Attrs, size: nat) {
    forall d: nat :: d < size ==> ByteGranted(ram, root, va, pa, a, d)
  }

  /** Byte d of a range from va translates to nothing. */
  ghost predicate ByteDenied(ram: Ram, root: nat, va: nat, d: nat) { Translate(ram, root, va + d).None? }

  ghost predicate RangeDenied(ram: Ram, root: nat, va: nat, size: nat) {
    forall d: nat :: d < size ==> ByteDenied(ram, root, va, d)
  }

  lemma FlatGrants(ram: Ram, tables: map<Key, nat>, flat: map<nat, Leaf>, x: nat, frame: nat, a: Attrs)
    requires TreeOk(ram, tables, flat) && Vpn(x) in flat
    requires var e := flat[Vpn(x)];
             e.frame == frame && e.attr == a.attr && e.ap == a.ap && e.sh == a.sh && e.pxn == a.pxn && e.uxn == a.uxn
    ensures Grants(ram, tables[ROOT], x, frame, a)
  {
    TranslateIsFlat(ram, tables, flat, x);
    WordIsFlat(ram, tables, flat, x);
    assert LeafOk(flat[Vpn(x)]);
    EncodeBits(flat[Vpn(x)]);
    hide Bits;
    hide LastWord;
    hide Translate;
    hide Encode;
    hide TreeOk;
  }

  /** Every byte of a mapped range translates to its byte's frame with exactly the attributes asked for. */
  lemma MappedGrants(ram: Ram, tables: map<Key, nat>, flat: map<nat, Leaf>, flat': map<nat, Leaf>, va: nat, pa: nat,
                     a: Attrs, n: nat)
    requires TreeOk(ram, tables, flat') && Mapped(flat, flat', va, pa, a, n) && va % PAGE_SIZE == 0
    ensures RangeGranted(ram, tables[ROOT], va, pa, a, n * PAGE_SIZE)
  {
    hide Grants;
    hide Vpn;
    hide MapPages;
    hide AllFresh;
    hide PageSet;
    hide Nth;
    hide TreeOk;
    RootOf(ram, tables, flat');
    forall d: nat | d < n * PAGE_SIZE ensures ByteGranted(ram, tables[ROOT], va, pa, a, d) {
      var j := d / PAGE_SIZE;
      LookupInRange(va, pa, d, a);
      MappedAt(flat, va, pa, a, n, j);
      NthFrame(pa, j);
      FlatGrants(ram, tables, flat', va + d, (pa / PAGE_SIZE + j) % FRAMES, a);
    }
  }

  lemma NthFrame(pa: nat, j: nat)
    ensures Nth(pa, j) / PAGE_SIZE == pa / PAGE_SIZE + j
  {
    NthIs(pa, j);
    Split(pa, PAGE_SIZE);
    DivOf(pa % PAGE_SIZE, pa / PAGE_SIZE + j, PAGE_SIZE);
  }

  /** And none of an unmapped one does any more. */
  lemma UnmappedDenies(ram: Ram, tables: map<Key, nat>, flat: map<nat, Leaf>, flat': map<nat, Leaf>, va: nat, n: nat)
    requires TreeOk(ram, tables, flat') && Unmapped(flat, flat', va, n) && va % PAGE_SIZE == 0
    ensures RangeDenied(ram, tables[ROOT], va, n * PAGE_SIZE)
  {
    hide Vpn;
    hide Nth;
    hide TreeOk;
    hide Translate;
    hide PageSet;
    hide UnmapPages;
    UnmappedKeys(flat, va, n);
    RootOf(ram, tables, flat');
    forall d: nat | d < n * PAGE_SIZE ensures ByteDenied(ram, tables[ROOT], va, d) {
      var j := d / PAGE_SIZE;
      LookupInRange(va, 0, d, Attrs(0, 0, 0, 0, 0));
      InPages(va, n, j);
      TranslateIsFlat(ram, tables, flat', va + d);
    }
  }

  lemma {:induction false} InPages(va: nat, n: nat, j: nat)
    requires j < n
    ensures Vpn(Nth(va, j)) in PageSet(va, n)
  {
    if j < n - 1 { InPages(va, n - 1, j); }
  }

  // ---------- the pages that tables take ----------

  /** The tables below the root that a walk to page v goes through. */
  ghost function Path(v: nat): set<Key> { {Key(1, v / 0x800_0000), Key(2, v / 0x4_0000), LeafTable(v)} }

  ghost function Paths(va: nat, n: nat): set<Key> {
    if n == 0 then {} else Paths(va, n - 1) + Path(Vpn(Nth(va, n - 1)))
  }

  /** How many tables n pages from va need that are not there. */
  ghost function Needed(keys: set<Key>, va: nat, n: nat): nat { |Paths(va, n) - keys| }

  lemma NeededStep(keys: set<Key>, va: nat, n: nat)
    ensures Needed(keys, va, n + 1) == Needed(keys, va, n) + |Path(Vpn(Nth(va, n))) - (keys + Paths(va, n))|
  {
    var a, b := Paths(va, n) - keys, Path(Vpn(Nth(va, n))) - (keys + Paths(va, n));
    assert Paths(va, n + 1) - keys == a + b;
  }

  lemma {:induction false} NeededGrows(keys: set<Key>, va: nat, i: nat, j: nat)
    requires i <= j
    ensures Needed(keys, va, i) <= Needed(keys, va, j)
  {
    hide Needed;
    hide Path;
    hide Paths;
    hide Vpn;
    hide Nth;
    if i < j {
      NeededGrows(keys, va, i, j - 1);
      NeededStep(keys, va, j - 1);
    }
  }

  /** One table more: the count of those still missing goes down exactly if it was one of them. */
  lemma OneLess(missing: set<Key>, k: Key)
    ensures |missing - {k}| == |missing| - if k in missing then 1 else 0
  {
    if k !in missing {
      assert missing - {k} == missing;
    }
  }

  lemma ThreeMissing(v: nat, keys: set<Key>)
    ensures |Path(v) - keys| == (if Key(1, v / 0x800_0000) in keys then 0 else 1)
                                + (if Key(2, v / 0x4_0000) in keys then 0 else 1)
                                + (if LeafTable(v) in keys then 0 else 1)
  {
    var k1, k2, k3 := Key(1, v / 0x800_0000), Key(2, v / 0x4_0000), LeafTable(v);
    var missing := Path(v) - keys;
    OneLess(missing, k1);
    OneLess(missing - {k1}, k2);
    OneLess(missing - {k1} - {k2}, k3);
    assert missing - {k1} - {k2} - {k3} == {};
  }

  /** Somewhere along the call, before any page that is already mapped, more tables are needed than pages are free. */
  ghost predicate ShortOf(free: nat, keys: set<Key>, flat: map<nat, Leaf>, va: nat, pa: nat, a: Attrs, n: nat) {
    exists j: nat :: j <= n && AllFresh(flat, va, pa, a, j) && free < Needed(keys, va, j)
  }

  lemma ShortNow(pages: nat, free: nat, keys: set<Key>, flat: map<nat, Leaf>, va: nat, pa: nat, a: Attrs, j: nat,
                 n: nat)
    requires j < n && free + Needed(keys, va, j) == pages && AllFresh(flat, va, pa, a, j + 1)
    requires free < |Path(Vpn(Nth(va, j))) - (keys + Paths(va, j))|
    ensures ShortOf(pages, keys, flat, va, pa, a, n)
  {
    NeededStep(keys, va, j);
  }

  lemma PathsNext(pages: nat, free: nat, free': nat, keys: set<Key>, va: nat, j: nat)
    requires free + Needed(keys, va, j) == pages
    requires free' + |Path(Vpn(Nth(va, j))) - (keys + Paths(va, j))| == free
    ensures free' + Needed(keys, va, j + 1) == pages
    ensures keys + Paths(va, j) + Path(Vpn(Nth(va, j))) == keys + Paths(va, j + 1)
  {
    NeededStep(keys, va, j);
  }

  lemma NothingYet(flat: map<nat, Leaf>, va: nat, pa: nat, a: Attrs)
    ensures Mapped(flat, flat, va, pa, a, 0) && Paths(va, 0) == {} && Nth(va, 0) == va && Nth(pa, 0) == pa
  {
  }

  lemma NthNext(a: nat, j: nat)
    ensures Nth(a, j + 1) == Nth(a, j) + PAGE_SIZE
  {
  }

  lemma PathLinked(v: nat, keys: set<Key>, keys': set<Key>)
    requires keys' == keys + {Key(1, v / 0x800_0000)} + {Key(2, v / 0x4_0000)} + {LeafTable(v)}
    ensures keys' == keys + Path(v)
  {
  }

  /** A mapped page has its tables. */
  lemma MappedHasPath(ram: Ram, tables: map<Key, nat>, flat: map<nat, Leaf>, va: nat)
    requires TreeOk(ram, tables, flat) && Vpn(va) in flat
    ensures Path(Vpn(va)) - tables.Keys == {}
  {
    PathExists(ram, tables, flat, va);
  }

  lemma EnoughFor(free: nat, keys: set<Key>, flat: map<nat, Leaf>, va: nat, pa: nat, a: Attrs, j: nat, n: nat)
    requires j <= n && Needed(keys, va, j) <= free && (j == n || !AllFresh(flat, va, pa, a, j + 1))
    ensures !ShortOf(free, keys, flat, va, pa, a, n)
  {
    hide Needed;
    forall i: nat | i <= n && AllFresh(flat, va, pa, a, i) ensures Needed(keys, va, i) <= free {
      if i > j { FreshPrefix(flat, va, pa, a, j + 1, i); }
      NeededGrows(keys, va, i, j);
    }
  }

  lemma MapsNext(flat: map<nat, Leaf>, va: nat, pa: nat, a: Attrs, j: nat, n: nat)
    requires j < n
    ensures var m, v, e := MapPages(flat, va, pa, j, a), Vpn(Nth(va, j)), LeafFor(Nth(pa, j), a);
            && (v in m ==> !AllFresh(flat, va, pa, a, n) && !AllFresh(flat, va, pa, a, j + 1))
            && (v !in m && AllFresh(flat, va, pa, a, j) ==> Mapped(flat, m[v := e], va, pa, a, j + 1))
  {
    if Vpn(Nth(va, j)) in MapPages(flat, va, pa, j, a) {
      NotAllFresh(flat, va, pa, a, j, n);
    }
  }

  /** After j pages: those are mapped, and the tables and pages used are those on their paths. */
  ghost predicate Reached(was: map<nat, Leaf>, keys: set<Key>, pages: nat, va: nat, pa: nat, a: Attrs, j: nat,
                          flat: map<nat, Leaf>, now: set<Key>, left: nat) {
    && Mapped(was, flat, va, pa, a, j)
    && now == keys + Paths(va, j) && left + Needed(keys, va, j) == pages
  }

  lemma ReachedNone(was: map<nat, Leaf>, keys: set<Key>, pages: nat, va: nat, pa: nat, a: Attrs)
    ensures Reached(was, keys, pages, va, pa, a, 0, was, keys, pages) && Nth(va, 0) == va && Nth(pa, 0) == pa
  {
    NothingYet(was, va, pa, a);
  }

  lemma ReachedNext(was: map<nat, Leaf>, keys: set<Key>, pages: nat, va: nat, pa: nat, a: Attrs, j: nat, n: nat,
                    flat: map<nat, Leaf>, now: set<Key>, left: nat, flat': map<nat, Leaf>, now': set<Key>, left': nat)
    requires Reached(was, keys, pages, va, pa, a, j, flat, now, left) && j < n
    requires var path := Path(Vpn(Nth(va, j))); now' == now + path && left' + |path - now| == left
    requires Vpn(Nth(va, j)) !in flat && flat' == flat[Vpn(Nth(va, j)) := LeafFor(Nth(pa, j), a)]
    ensures Reached(was, keys, pages, va, pa, a, j + 1, flat', now', left')
    ensures Nth(va, j + 1) == Nth(va, j) + PAGE_SIZE && Nth(pa, j + 1) == Nth(pa, j) + PAGE_SIZE
  {
    hide Path;
    hide Vpn;
    hide Needed;
    hide LeafFor;
    MapsNext(was, va, pa, a, j, n);
    PathsNext(pages, left, left', keys, va, j);
    NthNext(va, j);
    NthNext(pa, j);
  }

  /** How a run over n pages ends: short of pages exactly if those of some fresh prefix are too many, stopped at a page
      that is mapped, or with every page mapped and the tables on their paths. */
  ghost predicate Ends(r: Result, was: map<nat, Leaf>, keys: set<Key>, pages: nat, va: nat, pa: nat, a: Attrs, n: nat,
                       flat: map<nat, Leaf>, now: set<Key>, left: nat) {
    && (r == OutOfPages <==> ShortOf(pages, keys, was, va, pa, a, n))
    && (r == Remapped ==> !AllFresh(was, va, pa, a, n))
    && (r == Ok ==>
          && Mapped(was, flat, va, pa, a, n)
          && now == keys + Paths(va, n) && left + |Paths(va, n) - keys| == pages)
  }

  lemma ReachedStops(was: map<nat, Leaf>, keys: set<Key>, pages: nat, va: nat, pa: nat, a: Attrs, j: nat, n: nat,
                     flat: map<nat, Leaf>, now: set<Key>, left: nat, r: Result, flat': map<nat, Leaf>, now': set<Key>,
                     left': nat)
    requires Reached(was, keys, pages, va, pa, a, j, flat, now, left) && j < n
    requires
      || (r == Remapped && Vpn(Nth(va, j)) in flat)
      || (r == OutOfPages && Vpn(Nth(va, j)) !in flat && left < |Path(Vpn(Nth(va, j))) - now|)
    ensures Ends(r, was, keys, pages, va, pa, a, n, flat', now', left')
  {
    hide Path;
    hide Vpn;
    hide Needed;
    hide LeafFor;
    hide ShortOf;
    MapsNext(was, va, pa, a, j, n);
    if r == Remapped {
      EnoughFor(pages, keys, was, va, pa, a, j, n);
    } else {
      ShortNow(pages, left, keys, was, va, pa, a, j, n);
    }
  }

  lemma ReachedAll(was: map<nat, Leaf>, keys: set<Key>, pages: nat, va: nat, pa: nat, a: Attrs, n: nat,
                   flat: map<nat, Leaf>, now: set<Key>, left: nat)
    requires Reached(was, keys, pages, va, pa, a, n, flat, now, left)
    ensures Ends(Ok, was, keys, pages, va, pa, a, n, flat, now, left)
  {
    EnoughFor(pages, keys, was, va, pa, a, n, n);
  }

  lemma UnmapsNext(flat: map<nat, Leaf>, va: nat, j: nat, n: nat)
    requires j < n
    ensures var m, v := UnmapPages(flat, va, j), Vpn(Nth(va, j));
            && (v !in m ==> !AllPresent(flat, va, n))
            && (v in m && AllPresent(flat, va, j) ==> Unmapped(flat, m - {v}, va, j + 1))
  {
    if Vpn(Nth(va, j)) !in UnmapPages(flat, va, j) {
      NotAllPresent(flat, va, j, n);
    }
  }

  lemma FlatAdd(tables: map<Key, nat>, flat: map<nat, Leaf>, v: nat, e: Leaf)
    requires FlatOk(tables, flat) && v < FRAMES && LeafOk(e) && LeafTable(v) in tables
    ensures FlatOk(tables, flat[v := e]) && OnlyAt(flat, flat[v := e], v) && LeafWord(flat[v := e], v) == Encode(e)
  {
  }

  lemma FlatDrop(tables: map<Key, nat>, flat: map<nat, Leaf>, v: nat)
    requires FlatOk(tables, flat)
    ensures FlatOk(tables, flat - {v}) && OnlyAt(flat, flat - {v}, v) && LeafWord(flat - {v}, v) == 0
  {
  }

  /** Physical addresses are 64-bit too, and wrapping one does not change its frame number. */
  lemma LeafWraps(pa: nat, a: Attrs)
    ensures LeafFor(pa % U64, a) == LeafFor(pa, a)
  {
    ModDiv(pa, PAGE_SIZE, 0x10_0000_0000_0000);
    ModDiv(pa / PAGE_SIZE, FRAMES, 0x1_0000);
  }

  /** What holds between any two operations. */
  ghost predicate Sound(hhdm: nat, ram: Ram, head: nat, free: seq<nat>, tables: map<Key, nat>, out: set<nat>,
                        flat: map<nat, Leaf>) {
    && 0 < hhdm < U64 && hhdm % PAGE_SIZE == 0
    && (forall p :: p in ram ==> Mappable(hhdm, p))
    && FreeOk(ram, head, free, hhdm)
    && TreeOk(ram, tables, flat)
    && Partition(ram.Keys, free, tables, out)
  }

  /** What the kernel reads in an entry of an inner table. */
  lemma TableEntry(ram: Ram, tables: map<Key, nat>, flat: map<nat, Leaf>, k: Key, i: nat)
    requires TreeOk(ram, tables, flat) && k in tables && k.level < 3 && i < 512
    ensures tables[k] in ram && |ram[tables[k]]| == 512
    ensures var w := ram[tables[k]][i];
            if Child(k, i) in tables
            then Field(w, 1, 2) == 1 && Field(w, 0x1000, FRAMES) == tables[Child(k, i)]
            else Field(w, 1, 2) == 0
  {
    assert KeyOk(ram, tables, k) && EntryOk(ram, tables, flat, k, i);
    if Child(k, i) in tables {
      assert KeyOk(ram, tables, Child(k, i));
      ReadTable(tables[Child(k, i)]);
    } else {
      ZeroWord();
    }
  }

  /** What the kernel reads in the entry of page v. */
  lemma LeafEntry(ram: Ram, tables: map<Key, nat>, flat: map<nat, Leaf>, v: nat)
    requires TreeOk(ram, tables, flat) && LeafTable(v) in tables
    ensures var p := tables[LeafTable(v)];
            && p in ram && |ram[p]| == 512
            && ram[p][v % 512] == LeafWord(flat, v)
            && Field(ram[p][v % 512], 1, 2) == (if v in flat then 1 else 0)
            && Field(ram[p][v % 512], 0x1000, FRAMES) == (if v in flat then flat[v].frame else 0)
  {
    var k := LeafTable(v);
    Split(v, 512);
    assert KeyOk(ram, tables, k) && EntryOk(ram, tables, flat, k, v % 512);
    if v in flat {
      EncodeValid(flat[v]);
      FrameOf(flat[v]);
    } else {
      ZeroWord();
    }
  }

  /** A handed-out zero page becomes a table. */
  lemma LinkSound(hhdm: nat, ram: Ram, head: nat, free: seq<nat>, tables: map<Key, nat>, out: set<nat>,
                  flat: map<nat, Leaf>,
                  k: Key, i: nat, p: nat)
    requires Sound(hhdm, ram, head, free, tables, out, flat)
    requires k in tables && k.level < 3 && i < 512 && Child(k, i) !in tables && p in out && ram[p] == ZeroPage()
    ensures tables[k] in ram && |ram[tables[k]]| == 512
    ensures Sound(hhdm, Poke(ram, tables[k], i, TableWord(p)), head, free, tables[Child(k, i) := p], out - {p}, flat)
  {
    assert KeyOk(ram, tables, k);
    LinkKeepsTree(ram, tables, flat, k, i, p);
    var ram' := Poke(ram, tables[k], i, TableWord(p));
    PageFrame(ram, head, free, hhdm, tables[k], ram'[tables[k]]);
    OneMore(tables, Child(k, i), p);
    hide TreeOk;
    assert ram'.Keys == ram.Keys;
  }

  lemma OneMore(tables: map<Key, nat>, k: Key, p: nat)
    requires k !in tables
    ensures tables[k := p].Values == tables.Values + {p}
  {
    var tables' := tables[k := p];
    forall q | q in tables.Values ensures q in tables'.Values {
      var x :| x in tables && tables[x] == q;
      assert tables'[x] == q;
    }
    assert tables'[k] == p;
  }

  /** One page's entry is rewritten. */
  lemma WriteSound(hhdm: nat, ram: Ram, head: nat, free: seq<nat>, tables: map<Key, nat>, out: set<nat>,
                   flat: map<nat, Leaf>,
                   flat': map<nat, Leaf>, v: nat)
    requires Sound(hhdm, ram, head, free, tables, out, flat) && LeafTable(v) in tables
    requires OnlyAt(flat, flat', v) && FlatOk(tables, flat')
    ensures tables[LeafTable(v)] in ram && |ram[tables[LeafTable(v)]]| == 512
    ensures Sound(hhdm, Poke(ram, tables[LeafTable(v)], v % 512, LeafWord(flat', v)), head, free, tables, out, flat')
  {
    var p := tables[LeafTable(v)];
    assert KeyOk(ram, tables, LeafTable(v));
    WriteKeepsTree(ram, tables, flat, flat', v);
    var ram' := Poke(ram, p, v % 512, LeafWord(flat', v));
    PageFrame(ram, head, free, hhdm, p, ram'[p]);
    assert ram'.Keys == ram.Keys;
  }

  /** A valid link to no table is not sound. */
  lemma StrayLink(hhdm: nat, ram: Ram, head: nat, free: seq<nat>, tables: map<Key, nat>, out: set<nat>,
                  flat: map<nat, Leaf>,
                  k: Key, i: nat)
    requires k in tables && k.level < 3 && i < 512 && Child(k, i) !in tables
    requires tables[k] in ram && i < |ram[tables[k]]| && Field(ram[tables[k]][i], 1, 2) == 1
    ensures !Sound(hhdm, ram, head, free, tables, out, flat)
  {
    if Sound(hhdm, ram, head, free, tables, out, flat) {
      TableEntry(ram, tables, flat, k, i);
    }
  }

  /** Where the error pointer of kmem_alloc, the last byte of the address space, would lie. */
  function ErrorFrame(hhdm: nat): nat
    requires hhdm < U64
  {
    (U64 - 1 - hhdm) / PAGE_SIZE % FRAMES
  }

  /** The free stack holds all of memory, as before the first page is taken. */
  /** The pages on the stack are those there were and those from start up to p. */
  ghost predicate Freed(was: seq<nat>, free: seq<nat>, start: nat, p: nat) {
    forall q: nat :: q in free <==> q in was || start <= q * PAGE_SIZE < p
  }

  /** None of these pages lies in the range from p to end. */
  ghost predicate Unseen(keys: set<nat>, p: nat, end: nat) {
    forall q :: q in keys ==> q * PAGE_SIZE < p || end <= q * PAGE_SIZE
  }

  lemma UnseenIs(keys: set<nat>, p: nat, end: nat)
    ensures Unseen(keys, p, end) <==> forall q :: q in keys ==> q * PAGE_SIZE < p || end <= q * PAGE_SIZE
  {
  }

  lemma UnseenFirst(keys: set<nat>, p: nat, end: nat)
    requires Unseen(keys, p, end) && p + PAGE_SIZE <= end
    ensures p % PAGE_SIZE == 0 ==> p / PAGE_SIZE !in keys
  {
  }

  lemma FreedNone(free: seq<nat>, start: nat)
    ensures Freed(free, free, start, start)
  {
  }

  lemma FreedNext(keys: set<nat>, was: seq<nat>, free: seq<nat>, start: nat, p: nat, end: nat, f: nat)
    requires Unseen(keys, p, end) && Freed(was, free, start, p) && p + PAGE_SIZE <= end
    requires start <= p && p % PAGE_SIZE == 0 && f * PAGE_SIZE == p
    ensures Unseen(keys + {f}, p + PAGE_SIZE, end) && Freed(was, [f] + free, start, p + PAGE_SIZE)
  {
    forall q: nat ensures p <= q * PAGE_SIZE < p + PAGE_SIZE <==> q == f {}
  }

  lemma FreedAll(was: seq<nat>, free: seq<nat>, start: nat, p: nat, end: nat)
    requires Freed(was, free, start, p) && start % PAGE_SIZE == 0
    requires end < p + PAGE_SIZE && (p == start || (p % PAGE_SIZE == 0 && p <= end))
    ensures forall q: nat :: q in free <==> q in was || (start <= q * PAGE_SIZE && (q + 1) * PAGE_SIZE <= end)
  {
  }

  ghost predicate Stacked(hhdm: nat, memory: Ram, head: nat, pages: seq<nat>) {
    && FreeOk(memory, head, pages, hhdm) && (forall p :: p in memory <==> p in pages)
    && forall p :: p in memory ==> Mappable(hhdm, p) && |memory[p]| == 512
  }

  /** kmem_init: the pages of usable memory freed one by one; the last one freed is on top. */
  method StackPages(hhdm: nat, frames: seq<nat>) returns (memory: Ram, head: nat, ghost pages: seq<nat>)
    requires 0 < hhdm && forall i, j :: 0 <= i < j < |frames| ==> frames[i] != frames[j]
    requires forall i :: 0 <= i < |frames| ==> Mappable(hhdm, frames[i])
    ensures Stacked(hhdm, memory, head, pages)
    ensures |pages| == |frames| && forall i :: 0 <= i < |frames| ==> pages[i] == frames[|frames| - 1 - i]
  {
    memory, head, pages := map[], 0, [];
    for n := 0 to |frames|
      invariant Stacked(hhdm, memory, head, pages)
      invariant |pages| == n && forall i :: 0 <= i < n ==> pages[i] == frames[n - 1 - i]
    {
      var page := ZeroPage()[0 := head];
      PushFree(memory, head, pages, hhdm, frames[n], page);
      memory := memory[frames[n] := page];
      head := Virt(hhdm, frames[n]);
      pages := [frames[n]] + pages;
    }
  }

  /** The top page zeroed and taken off is a table with nothing in it. */
  lemma RootOnly(hhdm: nat, memory: Ram, head: nat, pages: seq<nat>)
    requires 0 < hhdm && hhdm % PAGE_SIZE == 0 && pages != [] && Stacked(hhdm, memory, head, pages)
    ensures var p := pages[0];
            && p in memory && |memory[p]| == 512 && head == Virt(hhdm, p)
            && Sound(hhdm, memory[p := ZeroPage()], memory[p][0], pages[1..], map[ROOT := p], {}, map[])
  {
    var p, rest := pages[0], pages[1..];
    PopFree(memory, head, pages, hhdm, ZeroPage());
    var ram, tables: map<Key, nat>, flat: map<nat, Leaf> := memory[p := ZeroPage()], map[ROOT := p], map[];
    assert tables[ROOT] == p && forall q :: q in tables.Values ==> q == p;
    assert ram.Keys == memory.Keys;
    assert TreeOk(ram, tables, flat);
    forall q ensures q in ram <==> q in rest || q == p {
      if q in ram && q != p {
        var i :| 0 <= i < |pages| && pages[i] == q;
        assert rest[i - 1] == q;
      }
    }
  }

  class Kernel {
    const hhdm: nat
    const root: nat
    var ram: Ram
    var freeList: nat

    ghost var free: seq<nat>
    ghost var tables: map<Key, nat>
    ghost var out: set<nat>
    ghost var flat: map<nat, Leaf>

    ghost predicate Valid()
      reads this
    {
      Sound(hhdm, ram, freeList, free, tables, out, flat) && root == Virt(hhdm, tables[ROOT])
    }

    /** vm_init over the free pages that kmem_init left: the top of the stack becomes the kernel's root table.  With
        no page at all the kernel panics. */
    constructor (offset: nat, memory: Ram, head: nat, ghost pages: seq<nat>)
      requires 0 < offset && offset % PAGE_SIZE == 0 && pages != [] && Stacked(offset, memory, head, pages)
      ensures Valid() && hhdm == offset && free == pages[1..] && out == {} && flat == map[]
      ensures tables == map[ROOT := pages[0]]
    {
      hhdm, root := offset, head;
      FrameOfVirt(offset, pages[0]);
      PopFree(memory, head, pages, offset, ZeroPage());
      ram := memory[Frame(offset, head) := ZeroPage()];
      freeList := memory[Frame(offset, head)][0];
      free, tables, out, flat := pages[1..], map[ROOT := pages[0]], {}, map[];
      new;
      RootOnly(offset, memory, head, pages);
    }

    /** kmem_alloc: the top of the stack, zeroed. */
    method KmemAlloc() returns (r: Option<nat>)
      requires Valid()
      modifies this`ram, this`freeList, this`free, this`out
      ensures Valid()
      ensures r.None? <==> old(free) == []
      ensures r.None? ==> ram == old(ram) && free == old(free) && out == old(out)
      ensures r.Some? ==>
                && r.value == Virt(hhdm, old(free)[0]) && free == old(free)[1..] && out == old(out) + {old(free)[0]}
                && ram == old(ram)[old(free)[0] := ZeroPage()] && old(free)[0] in old(ram) && old(free)[0] !in old(out)
    {
      var ret := freeList;
      if ret == 0 {
        return None;
      }
      ghost var p := free[0];
      FrameOfVirt(hhdm, p);
      PopFree(ram, freeList, free, hhdm, ZeroPage());
      DataPageKeepsTree(ram, tables, flat, p, ZeroPage());
      freeList := ram[Frame(hhdm, ret)][0];
      ram := ram[Frame(hhdm, ret) := ZeroPage()];
      free := free[1..];
      out := out + {p};
      return Some(ret);
    }

    /** kmem_free of a page that is handed out, or of one the allocator has not seen yet. */
    method KmemFree(v: nat) returns (stopped: bool)
      requires Valid() && hhdm <= v
      requires v % PAGE_SIZE == 0 ==>
                Mappable(hhdm, Frame(hhdm, v)) && (Frame(hhdm, v) in out || Frame(hhdm, v) !in ram)
      modifies this`ram, this`freeList, this`free, this`out
      ensures Valid()
      ensures stopped <==> v % PAGE_SIZE != 0
      ensures stopped ==> ram == old(ram) && free == old(free) && out == old(out)
      ensures !stopped ==> free == [Frame(hhdm, v)] + old(free) && out == old(out) - {Frame(hhdm, v)}
      ensures !stopped ==> ram.Keys == old(ram).Keys + {Frame(hhdm, v)}
    {
      if v % PAGE_SIZE != 0 {
        return true;
      }
      var p := Frame(hhdm, v);
      AlignedFrame(hhdm, v);
      var page := ZeroPage()[0 := freeList];
      PushFree(ram, freeList, free, hhdm, p, page);
      DataPageKeepsTree(ram, tables, flat, p, page);
      ram := ram[p := page];
      freeList := v;
      free := [p] + free;
      out := out - {p};
      return false;
    }

    lemma Basics()
      requires Valid()
      ensures 0 < hhdm < U64 && hhdm % PAGE_SIZE == 0 && out <= ram.Keys && forall p :: p in free ==> p in ram
      ensures TreeOk(ram, tables, flat) && FlatOk(tables, flat) && forall p :: p in ram ==> p < FRAMES
    {
    }

    /** kmem_free_range: every whole page of [start, end), none of which the allocator has seen. */
    method FreeRange(start: nat, end: nat) returns (stopped: bool)
      requires Valid() && end <= FRAMES * PAGE_SIZE && hhdm + end <= U64
      requires forall p :: p in ram ==> p * PAGE_SIZE < start || end <= p * PAGE_SIZE
      modifies this`ram, this`freeList, this`free, this`out
      ensures Valid() && out == old(out)
      ensures stopped <==> start % PAGE_SIZE != 0 && start + PAGE_SIZE <= end
      ensures stopped ==> free == old(free)
      ensures !stopped ==> forall p: nat :: p in free <==>
              p in old(free) || (start <= p * PAGE_SIZE && (p + 1) * PAGE_SIZE <= end)
    {
      hide Sound;
      hide TreeOk;
      hide FlatOk;
      hide Freed;
      hide Mappable;
      hide Frame;
      hide Unseen;
      var p := start;
      UnseenIs(ram.Keys, start, end);
      FreedNone(free, start);
      while p + PAGE_SIZE <= end
        invariant start <= p && Valid() && out == old(out)
        invariant p == start || (start % PAGE_SIZE == 0 && p % PAGE_SIZE == 0 && p <= end)
        invariant Unseen(ram.Keys, p, end)
        invariant start % PAGE_SIZE != 0 ==> free == old(free)
        invariant start % PAGE_SIZE == 0 ==> Freed(old(free), free, start, p)
        decreases end - p
      {
        Basics();
        PageOfPhys(hhdm, p);
        ghost var keys, was := ram.Keys, free;
        UnseenFirst(keys, p, end);
        stopped := KmemFree(hhdm + p);
        if stopped {
          return;
        }
        FreedNext(keys, old(free), was, start, p, end, Frame(hhdm, hhdm + p));
        p := p + PAGE_SIZE;
      }
      if start % PAGE_SIZE == 0 {
        FreedAll(old(free), free, start, p, end);
      }
      return false;
    }

    /** The owner of a handed-out page writing to it: no translation, and no page's status, changes. */
    method WriteFrame(p: nat, i: nat, w: nat)
      requires Valid() && p in out && i < 512 && w < U64
      modifies this`ram
      ensures Valid() && p in old(ram) && |old(ram)[p]| == 512 && ram == Poke(old(ram), p, i, w)
    {
      assert p in ram;
      DataPageKeepsTree(ram, tables, flat, p, Poke(ram, p, i, w)[p]);
      PageFrame(ram, freeList, free, hhdm, p, Poke(ram, p, i, w)[p]);
      ram := Poke(ram, p, i, w);
      assert ram.Keys == old(ram).Keys;
    }

    /** Every table that was there is still there, at the same frame. */
    ghost predicate Grown(before: map<Key, nat>)
      reads this
    {
      forall k :: k in before ==> k in tables && tables[k] == before[k]
    }

    /** Point entry i of the table at t to a fresh page. */
    method LinkTable(t: nat, i: nat, page: nat, ghost k: Key, ghost q: nat)
      requires Valid() && k in tables && t == Virt(hhdm, tables[k]) && k.level < 3 && i < 512 && Child(k, i) !in tables
      requires q in out && q in ram && ram[q] == ZeroPage() && page == Virt(hhdm, q)
      modifies this`ram, this`out, this`tables
      ensures Valid() && tables == old(tables)[Child(k, i) := q] && out == old(out) - {q}
    {
      hide Sound;
      hide TreeOk;
      Basics();
      FrameOfVirt(hhdm, tables[k]);
      FrameOfVirt(hhdm, q);
      DivOf(q, 0, FRAMES);
      LinkSound(hhdm, ram, freeList, free, tables, out, flat, k, i, q);
      var w := WriteTable(Frame(hhdm, page));
      ram := Poke(ram, Frame(hhdm, t), i, w);
      tables := tables[Child(k, i) := q];
      out := out - {q};
    }

    /** table_next_table without allocation: follow entry i of the table at t, which is table k. */
    method ReadLink(t: nat, i: nat, ghost k: Key) returns (r: Option<nat>)
      requires Valid() && k in tables && t == Virt(hhdm, tables[k]) && k.level < 3 && i < 512
      ensures r == if Child(k, i) in tables then Some(Virt(hhdm, tables[Child(k, i)])) else None
    {
      hide Sound;
      hide TreeOk;
      Basics();
      FrameOfVirt(hhdm, tables[k]);
      TableEntry(ram, tables, flat, k, i);
      var td := ram[Frame(hhdm, t)][i];
      if Field(td, 1, 2) == 1 {
        return Some(Virt(hhdm, Field(td, 0x1000, FRAMES)));
      }
      return None;
    }

    /** table_next_table with allocation.  When a table is missing and no page is left, the entry has already
        been overwritten as its caller stops: it is marked a valid link, to the frame the error pointer gives. */
    method NextTable(t: nat, i: nat, ghost k: Key) returns (r: Option<nat>)
      requires Valid() && k in tables && t == Virt(hhdm, tables[k]) && k.level < 3 && i < 512
      modifies this`ram, this`freeList, this`free, this`out, this`tables
      ensures Grown(old(tables))
      ensures r.None? <==> Child(k, i) !in old(tables) && old(free) == []
      ensures r.Some? ==>
                Valid() && out == old(out) && Child(k, i) in tables && r.value == Virt(hhdm, tables[Child(k, i)])
      ensures r.Some? ==> if Child(k, i) in old(tables)
                          then ram == old(ram) && tables == old(tables) && free == old(free)
                          else tables == old(tables)[Child(k, i) := old(free)[0]] && free == old(free)[1..]
      ensures r.Some? ==> tables.Keys == old(tables).Keys + {Child(k, i)}
      ensures r.None? ==>
                && free == old(free) && tables == old(tables) && out == old(out) && !Valid()
                && tables[k] in old(ram) && |old(ram)[tables[k]]| == 512
                && ram == Poke(old(ram), tables[k], i, TableWord(ErrorFrame(hhdm)))
                && Follow(ram, tables[k], i) == Some(ErrorFrame(hhdm))
    {
      hide Sound;
      hide TreeOk;
      Basics();
      r := ReadLink(t, i, k);
      if r.Some? {
        return;
      }
      r := KmemAlloc();
      if r.None? {
        FrameOfVirt(hhdm, tables[k]);
        TableEntry(ram, tables, flat, k, i);
        var junk := WriteTable((U64 - 1 - hhdm) / PAGE_SIZE);
        ram := Poke(ram, Frame(hhdm, t), i, junk);
        ReadTable(ErrorFrame(hhdm));
        StrayLink(hhdm, ram, freeList, free, tables, out, flat, k, i);
        return;
      }
      LinkTable(t, i, r.value, k, old(free)[0]);
    }

    /** The same, by what it costs. */
    method StepTable(t: nat, i: nat, ghost k: Key) returns (r: Option<nat>)
      requires Valid() && k in tables && t == Virt(hhdm, tables[k]) && k.level < 3 && i < 512
      modifies this`ram, this`freeList, this`free, this`out, this`tables
      ensures Grown(old(tables)) && out == old(out)
      ensures r.None? <==> Child(k, i) !in old(tables) && old(free) == []
      ensures r.Some? ==> Valid() && Child(k, i) in tables && r.value == Virt(hhdm, tables[Child(k, i)])
      ensures r.Some? ==> tables.Keys == old(tables).Keys + {Child(k, i)}
      ensures r.Some? ==> |free| == |old(free)| - if Child(k, i) in old(tables) then 0 else 1
      ensures r.None? ==> free == [] && !Valid()
    {
      hide Sound;
      r := NextTable(t, i, k);
    }

    /** walk_pagetable with allocation: the last-level table for va. */
    method WalkTable(va: nat) returns (r: Option<nat>)
      requires Valid()
      modifies this`ram, this`freeList, this`free, this`out, this`tables
      ensures Grown(old(tables))
      ensures r.None? <==> |old(free)| < |Path(Vpn(va)) - old(tables).Keys|
      ensures r.Some? ==> Valid() && out == old(out) && LeafTable(Vpn(va)) in tables
                          && r.value == Virt(hhdm, tables[LeafTable(Vpn(va))])
      ensures r.Some? ==> Linked(old(tables).Keys, |old(free)|, Path(Vpn(va)))
      ensures r.None? ==> free == [] && out == old(out) && !Valid()
    {
      hide Sound;
      hide TreeOk;
      hide Path;
      hide Child;
      hide LeafTable;
      hide Vpn;
      Basics();
      ghost var v := Vpn(va);
      WalkKeys(va);
      ThreeMissing(v, tables.Keys);
      r := StepTable(root, Index0(va), ROOT);
      if r.None? {
        return;
      }
      r := StepTable(r.value, Index1(va), Key(1, v / 0x800_0000));
      if r.None? {
        return;
      }
      r := StepTable(r.value, Index2(va), Key(2, v / 0x4_0000));
      if r.Some? {
        PathLinked(v, old(tables).Keys, tables.Keys);
      }
    }

    /** Exactly the missing ones of these tables were added, each at the cost of a free page. */
    ghost predicate Linked(before: set<Key>, pages: nat, path: set<Key>)
      reads this`tables, this`free
    {
      tables.Keys == before + path && |free| + |path - before| == pages
    }

    /** walk_pagetable without allocation: a missing table is a stop, and then the page is not mapped. */
    method FindTable(va: nat) returns (r: Option<nat>)
      requires Valid()
      ensures var k := LeafTable(Vpn(va)); r == if k in tables then Some(Virt(hhdm, tables[k])) else None
      ensures r.None? ==> Vpn(va) !in flat
    {
      hide Sound;
      hide TreeOk;
      Basics();
      ghost var v := Vpn(va);
      WalkKeys(va);
      if LeafTable(v) in tables {
        PathExists(ram, tables, flat, va);
      }
      r := ReadLink(root, Index0(va), ROOT);
      if r.None? {
        return;
      }
      r := ReadLink(r.value, Index1(va), Key(1, v / 0x800_0000));
      if r.None? {
        return;
      }
      r := ReadLink(r.value, Index2(va), Key(2, v / 0x4_0000));
    }

    /** Read page va's descriptor in the last-level table at l3. */
    method ReadEntry(l3: nat, va: nat) returns (w: nat)
      requires Valid() && LeafTable(Vpn(va)) in tables && l3 == Virt(hhdm, tables[LeafTable(Vpn(va))])
      ensures w == LeafWord(flat, Vpn(va))
      ensures Field(w, 1, 2) == if Vpn(va) in flat then 1 else 0
      ensures Field(w, 0x1000, FRAMES) == if Vpn(va) in flat then flat[Vpn(va)].frame else 0
    {
      hide Sound;
      hide TreeOk;
      Basics();
      IndicesSpellVpn(va);
      FrameOfVirt(hhdm, tables[LeafTable(Vpn(va))]);
      LeafEntry(ram, tables, flat, Vpn(va));
      w := ram[Frame(hhdm, l3)][Index3(va)];
    }

    /** Overwrite it; the page's translation becomes what flat' says, the others stay. */
    method WriteEntry(l3: nat, va: nat, w: nat, ghost flat': map<nat, Leaf>)
      requires Valid() && LeafTable(Vpn(va)) in tables && l3 == Virt(hhdm, tables[LeafTable(Vpn(va))])
      requires OnlyAt(flat, flat', Vpn(va)) && FlatOk(tables, flat') && w == LeafWord(flat', Vpn(va))
      modifies this`ram, this`flat
      ensures Valid() && flat == flat'
    {
      hide Sound;
      hide TreeOk;
      Basics();
      IndicesSpellVpn(va);
      FrameOfVirt(hhdm, tables[LeafTable(Vpn(va))]);
      WriteSound(hhdm, ram, freeList, free, tables, out, flat, flat', Vpn(va));
      ram := Poke(ram, Frame(hhdm, l3), Index3(va), w);
      flat := flat';
    }

    /** One round of paging_map's loop. */
    method MapPage(va: nat, pa: nat, a: Attrs) returns (r: Result)
      requires Valid() && AttrsOk(a)
      modifies this`ram, this`freeList, this`free, this`out, this`tables, this`flat
      ensures r == Ok || r == OutOfPages || r == Remapped
      ensures r != OutOfPages ==> Valid() && out == old(out) && Grown(old(tables))
      ensures r == OutOfPages <==> |old(free)| < |Path(Vpn(va)) - old(tables).Keys|
      ensures r != OutOfPages ==> Linked(old(tables).Keys, |old(free)|, Path(Vpn(va)))
      ensures r == OutOfPages ==> free == [] && Vpn(va) !in old(flat)
      ensures r == Remapped ==> Vpn(va) in flat && flat == old(flat)
      ensures r == Ok ==> Vpn(va) !in old(flat) && flat == old(flat)[Vpn(va) := LeafFor(pa, a)]
      ensures r == Ok ==> ROOT in tables && Grants(ram, tables[ROOT], va, pa / PAGE_SIZE % FRAMES, a)
    {
      hide Grants;
      hide Sound;
      hide TreeOk;
      Basics();
      if Vpn(va) in flat {
        MappedHasPath(ram, tables, flat, va);
      }
      var l3 := WalkTable(va);
      if l3.None? {
        return OutOfPages;
      }
      var pde := ReadEntry(l3.value, va);
      if Field(pde, 1, 2) == 1 {
        return Remapped;
      }
      var w := WriteLeaf(pde, LeafFor(pa, a));
      FlatAdd(tables, flat, Vpn(va), LeafFor(pa, a));
      WriteEntry(l3.value, va, w, flat[Vpn(va) := LeafFor(pa, a)]);
      Basics();
      FlatGrants(ram, tables, flat, va, pa / PAGE_SIZE % FRAMES, a);
      return Ok;
    }

    /** One round of paging_unmap's loop. */
    method UnmapPage(va: nat) returns (r: Result)
      requires Valid()
      modifies this`ram, this`flat
      ensures r == Ok || r == NotMapped
      ensures Valid()
      ensures r == NotMapped <==> Vpn(va) !in old(flat)
      ensures flat == if r == Ok then old(flat) - {Vpn(va)} else old(flat)
    {
      hide Sound;
      hide TreeOk;
      Basics();
      var l3 := FindTable(va);
      if l3.None? {
        return NotMapped;
      }
      var pde := ReadEntry(l3.value, va);
      if Field(pde, 1, 2) != 1 {
        return NotMapped;
      }
      FlatDrop(tables, flat, Vpn(va));
      WriteEntry(l3.value, va, 0, flat - {Vpn(va)});
      return Ok;
    }

    /** One turn of the loop of paging_map, after j of n pages. */
    method MapNext(va: nat, pa: nat, a: Attrs, ghost va0: nat, ghost pa0: nat, ghost j: nat, ghost n: nat,
                   ghost was: map<nat, Leaf>, ghost keys: set<Key>, ghost pages: nat) returns (r: Result)
      requires Valid() && AttrsOk(a) && j < n && va == Nth(va0, j) && pa == Nth(pa0, j)
      requires Reached(was, keys, pages, va0, pa0, a, j, flat, tables.Keys, |free|)
      modifies this`ram, this`freeList, this`free, this`out, this`tables, this`flat
      ensures r == Ok || r == OutOfPages || r == Remapped
      ensures r != OutOfPages ==> Valid() && out == old(out) && Grown(old(tables))
      ensures r == OutOfPages ==> free == []
      ensures r == Ok ==> Reached(was, keys, pages, va0, pa0, a, j + 1, flat, tables.Keys, |free|)
      ensures r == Ok ==> Nth(va0, j + 1) == va + PAGE_SIZE && Nth(pa0, j + 1) == pa + PAGE_SIZE
      ensures r != Ok ==> Ends(r, was, keys, pages, va0, pa0, a, n, flat, tables.Keys, |free|)
    {
      hide Sound;
      hide Path;
      hide Nth;
      hide Vpn;
      hide LeafFor;
      hide Reached;
      hide Ends;
      ghost var before, now, left := flat, tables.Keys, |free|;
      r := MapPage(va, pa, a);
      if r == Ok {
        ReachedNext(was, keys, pages, va0, pa0, a, j, n, before, now, left, flat, tables.Keys, |free|);
      } else {
        ReachedStops(was, keys, pages, va0, pa0, a, j, n, before, now, left, r, flat, tables.Keys, |free|);
      }
    }

    /** The loop of paging_map, over n pages. */
    method MapLoop(va0: nat, pa0: nat, end: nat, a: Attrs, ghost n: nat) returns (r: Result)
      requires Valid() && AttrsOk(a) && Covers(va0, end, n)
      modifies this`ram, this`freeList, this`free, this`out, this`tables, this`flat
      ensures r == Ok || r == OutOfPages || r == Remapped
      ensures r != OutOfPages ==> Valid() && out == old(out) && Grown(old(tables))
      ensures r == OutOfPages ==> free == []
      ensures Ends(r, old(flat), old(tables).Keys, |old(free)|, va0, pa0, a, n, flat, tables.Keys, |free|)
    {
      hide Sound;
      hide Nth;
      hide Reached;
      hide Ends;
      ghost var was, keys, pages := flat, tables.Keys, |free|;
      ReachedNone(flat, keys, pages, va0, pa0, a);
      var va, pa := va0, pa0;
      ghost var j := 0;
      while va < end
        invariant Valid() && out == old(out) && Grown(old(tables))
        invariant j <= n && va == Nth(va0, j) && pa == Nth(pa0, j)
        invariant Reached(was, keys, pages, va0, pa0, a, j, flat, tables.Keys, |free|)
        decreases n - j
      {
        r := MapNext(va, pa, a, va0, pa0, j, n, was, keys, pages);
        if r != Ok {
          return;
        }
        va, pa := va + PAGE_SIZE, pa + PAGE_SIZE;
        j := j + 1;
      }
      ReachedAll(was, keys, pages, va0, pa0, a, n, flat, tables.Keys, |free|);
      return Ok;
    }

    /** paging_map.  It stops on a misaligned range, on a page that is already mapped, or when no page is
        left for a table; otherwise it maps exactly its range. */
    method Map(va: nat, pa: nat, size: nat, a: Attrs) returns (r: Result)
      requires Valid() && AttrsOk(a) && va < U64 && size < U64
      modifies this`ram, this`freeList, this`free, this`out, this`tables, this`flat
      ensures r != NotMapped
      ensures r == Misaligned <==> va % PAGE_SIZE != 0 || size % PAGE_SIZE != 0
      ensures r == Misaligned ==> flat == old(flat)
      ensures r != OutOfPages ==> Valid() && out == old(out) && Grown(old(tables))
      ensures r == OutOfPages <==>
              r != Misaligned && ShortOf(|old(free)|, old(tables).Keys, old(flat), va, pa, a, Count(va, size))
      ensures r == OutOfPages ==> free == []
      ensures r == Remapped <==> r != Misaligned && r != OutOfPages && !AllFresh(old(flat), va, pa, a, Count(va, size))
      ensures r == Ok ==> Mapped(old(flat), flat, va, pa, a, Count(va, size))
      ensures r == Ok ==> Linked(old(tables).Keys, |old(free)|, Paths(va, Count(va, size)))
      ensures r == Ok ==>
                ROOT in tables && RangeGranted(ram, tables[ROOT], va, pa, a, Count(va, size) * PAGE_SIZE)
    {
      if va % PAGE_SIZE != 0 || size % PAGE_SIZE != 0 {
        return Misaligned;
      }
      EndIs(va, size);
      ghost var was := flat;
      r := MapLoop(va, pa, (va + size) % U64, a, Count(va, size));
      if r == Ok {
        Basics();
        MappedGrants(ram, tables, was, flat, va, pa, a, Count(va, size));
      }
    }

    method UnmapLoop(va0: nat, end: nat, ghost n: nat) returns (r: Result)
      requires Valid() && Covers(va0, end, n)
      modifies this`ram, this`flat
      ensures Valid() && (r == Ok || r == NotMapped)
      ensures r == NotMapped ==> !AllPresent(old(flat), va0, n)
      ensures r == Ok ==> Unmapped(old(flat), flat, va0, n)
    {
      hide Sound;
      var va := va0;
      ghost var j := 0;
      while va < end
        invariant Valid() && j <= n && va == Nth(va0, j) && Unmapped(old(flat), flat, va0, j)
        decreases n - j
      {
        r := UnmapPage(va);
        UnmapsNext(old(flat), va0, j, n);
        if r != Ok {
          return;
        }
        va := va + PAGE_SIZE;
        j := j + 1;
      }
      return Ok;
    }

    /** paging_unmap: it stops at the first page that is not mapped. */
    method Unmap(va: nat, size: nat) returns (r: Result)
      requires Valid() && va < U64 && size < U64
      modifies this`ram, this`flat
      ensures r == Ok || r == Misaligned || r == NotMapped
      ensures Valid()
      ensures r == Misaligned <==> va % PAGE_SIZE != 0 || size % PAGE_SIZE != 0
      ensures r == Misaligned ==> flat == old(flat)
      ensures r == NotMapped ==> !AllPresent(old(flat), va, Count(va, size))
      ensures r == Ok ==> Unmapped(old(flat), flat, va, Count(va, size))
      ensures r == Ok ==> ROOT in tables && RangeDenied(ram, tables[ROOT], va, Count(va, size) * PAGE_SIZE)
    {
      if va % PAGE_SIZE != 0 || size % PAGE_SIZE != 0 {
        return Misaligned;
      }
      EndIs(va, size);
      ghost var was := flat;
      r := UnmapLoop(va, (va + size) % U64, Count(va, size));
      if r == Ok {
        Basics();
        UnmappedDenies(ram, tables, was, flat, va, Count(va, size));
      }
    }

    /** paging_lookup: a missing table stops the walk; an unmapped page reads as frame zero. */
    method Lookup(va: nat) returns (r: Option<nat>)
      requires Valid()
      ensures Vpn(va) in flat ==> r == Some(flat[Vpn(va)].frame * PAGE_SIZE + va % PAGE_SIZE)
      ensures Vpn(va) !in flat ==> r == if LeafTable(Vpn(va)) in tables then Some(va % PAGE_SIZE) else None
    {
      var l3 := FindTable(va);
      if l3.None? {
        return None;
      }
      var pde := ReadEntry(l3.value, va);
      return Some(Field(pde, 0x1000, FRAMES) * PAGE_SIZE + va % PAGE_SIZE);
    }
  }

  lemma AlignedFrame(hhdm: nat, v: nat)
    requires hhdm % PAGE_SIZE == 0 && v % PAGE_SIZE == 0 && hhdm <= v
    ensures v == Virt(hhdm, Frame(hhdm, v))
  {
  }

  lemma PageOfPhys(hhdm: nat, phys: nat)
    requires hhdm % PAGE_SIZE == 0
    ensures (hhdm + phys) % PAGE_SIZE == phys % PAGE_SIZE && Frame(hhdm, hhdm + phys) == phys / PAGE_SIZE
    ensures phys % PAGE_SIZE == 0 && phys + PAGE_SIZE <= FRAMES * PAGE_SIZE && hhdm + phys + PAGE_SIZE <= U64 ==>
              Mappable(hhdm, phys / PAGE_SIZE)
  {
  }
}
