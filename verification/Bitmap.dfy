/** The packed bitmap that hands out runs of virtual pages. */
module Bitmap {
  import opened Common

  datatype Outcome = Stopped | NoMemory | Done(addr: nat)

  // ---------- bits in a byte ----------

  /** 1 << i. */
  function Mask(i: nat): bv8
    requires i < 8
  {
    match i
    case 0 => 0x01
    case 1 => 0x02
    case 2 => 0x04
    case 3 => 0x08
    case 4 => 0x10
    case 5 => 0x20
    case 6 => 0x40
    case _ => 0x80
  }

  predicate GetBit(b: bv8, i: nat)
    requires i < 8
  {
    b & Mask(i) != 0
  }

  function SetBit(b: bv8, i: nat): bv8
    requires i < 8
  {
    b | Mask(i)
  }

  function ClearBit(b: bv8, i: nat): bv8
    requires i < 8
  {
    b & !Mask(i)
  }

  /** The mask and the test as the shift macros write them. */
  lemma ByShift(b: bv8, i: nat)
    requires i < 8
    ensures Mask(i) == 1 << i
    ensures GetBit(b, i) == ((b >> i) & 1 != 0)
  {
    match i {
      case 0 =>
      case 1 =>
      case 2 =>
      case 3 =>
      case 4 =>
      case 5 =>
      case 6 =>
      case 7 =>
    }
  }

  lemma Masked(b: bv8, m: bv8, n: bv8)
    requires m & n == 0 || m == n
    ensures m & n == 0 ==> (b | m) & n == b & n && (b & !m) & n == b & n
    ensures m == n ==> (b | m) & n == m && (b & !m) & n == 0
  {
  }

  lemma MasksApart(i: nat, j: nat)
    requires i < 8 && j < 8
    ensures if i == j then Mask(i) == Mask(j) && Mask(i) != 0 else Mask(i) & Mask(j) == 0
  {
  }

  /** Setting and clearing touch one bit and no other. */
  lemma BitOps(b: bv8, i: nat, j: nat)
    requires i < 8 && j < 8
    ensures GetBit(SetBit(b, i), j) == (i == j || GetBit(b, j))
    ensures GetBit(ClearBit(b, i), j) == (i != j && GetBit(b, j))
  {
    MasksApart(i, j);
    var m, n := Mask(i), Mask(j);
    Masked(b, m, n);
  }

  lemma ByteFromBits(a: bv8, b: bv8)
    requires forall i :: 0 <= i < 8 ==> GetBit(a, i) == GetBit(b, i)
    ensures a == b
  {
    assert GetBit(a, 0) == GetBit(b, 0) && GetBit(a, 1) == GetBit(b, 1);
    assert GetBit(a, 2) == GetBit(b, 2) && GetBit(a, 3) == GetBit(b, 3);
    assert GetBit(a, 4) == GetBit(b, 4) && GetBit(a, 5) == GetBit(b, 5);
    assert GetBit(a, 6) == GetBit(b, 6) && GetBit(a, 7) == GetBit(b, 7);
  }

  // ---------- bits in a byte sequence ----------

  predicate Bit(s: seq<bv8>, p: nat)
    requires p < 8 * |s|
  {
    GetBit(s[p / 8], p % 8)
  }

  lemma UpdateBit(s: seq<bv8>, p: nat, q: nat)
    requires p < 8 * |s| && q < 8 * |s|
    ensures Bit(s[p / 8 := SetBit(s[p / 8], p % 8)], q) == (p == q || Bit(s, q))
    ensures Bit(s[p / 8 := ClearBit(s[p / 8], p % 8)], q) == (p != q && Bit(s, q))
  {
    if p / 8 == q / 8 {
      BitOps(s[p / 8], p % 8, q % 8);
    }
  }

  /** A bitmap is determined by its bits. */
  lemma BytesFromBits(s: seq<bv8>, t: seq<bv8>)
    requires |s| == |t| && forall p: nat :: p < 8 * |s| ==> Bit(s, p) == Bit(t, p)
    ensures s == t
  {
    forall k | 0 <= k < |s| ensures s[k] == t[k] {
      forall i | 0 <= i < 8 ensures GetBit(s[k], i) == GetBit(t[k], i) {
        var p := 8 * k + i;
        assert p / 8 == k && p % 8 == i && Bit(s, p) == Bit(t, p);
      }
      ByteFromBits(s[k], t[k]);
    }
  }

  /** n consecutive free pages from start, all below count. */
  ghost predicate FreeRun(s: seq<bv8>, count: nat, start: nat, n: nat) {
    start + n <= count <= 8 * |s| && forall i: nat :: start <= i < start + n ==> !Bit(s, i)
  }

  ghost predicate NoFreeRun(s: seq<bv8>, count: nat, n: nat) {
    forall start: nat :: !FreeRun(s, count, start, n)
  }

  ghost predicate FirstFreeRun(s: seq<bv8>, count: nat, start: nat, n: nat) {
    FreeRun(s, count, start, n) && forall k: nat :: k < start ==> !FreeRun(s, count, k, n)
  }

  /** t is s with the bits from lo up to hi turned on or off. */
  ghost predicate Changed(s: seq<bv8>, t: seq<bv8>, lo: nat, hi: nat, on: bool) {
    |t| == |s| && forall q: nat :: q < 8 * |s| ==> Bit(t, q) == if lo <= q < hi then on else Bit(s, q)
  }

  class AllocBitMap {
    const bitmap: array<bv8>
    const pageCount: nat
    const pool: nat

    constructor (bytes: array<bv8>, pages: nat, base: nat)
      ensures bitmap == bytes && pageCount == pages && pool == base
    {
      bitmap, pageCount, pool := bytes, pages, base;
    }

    /** The pool ends below the top of the 64-bit address space. */
    ghost predicate Valid() {
      pageCount <= 8 * bitmap.Length && pool + pageCount * PAGE_SIZE < U64
    }

    /** bm_find_n_free_pages: on a set bit the search jumps past it, and still finds the least start. */
    method FindFree(n: nat) returns (r: Option<nat>)
      requires Valid()
      ensures match r
              case Some(start) => FirstFreeRun(bitmap[..], pageCount, start, n)
              case None => NoFreeRun(bitmap[..], pageCount, n)
    {
      var start := 0;
      while start + n <= pageCount
        invariant forall s: nat :: s < start ==> !FreeRun(bitmap[..], pageCount, s, n)
        decreases pageCount + 1 - start
      {
        var i := 0;
        while i < n && !Bit(bitmap[..], start + i)
          invariant i <= n
          invariant forall j: nat :: start <= j < start + i ==> !Bit(bitmap[..], j)
        {
          i := i + 1;
        }
        if i == n {
          return Some(start);
        }
        assert Bit(bitmap[..], start + i);
        start := start + i + 1;
      }
      return None;
    }

    method SetPages(page: nat, n: nat)
      requires Valid() && page + n <= pageCount
      modifies bitmap
      ensures Changed(old(bitmap[..]), bitmap[..], page, page + n, true)
    {
      for pos := page to page + n
        invariant Changed(old(bitmap[..]), bitmap[..], page, pos, true)
      {
        ghost var s := bitmap[..];
        bitmap[pos / 8] := SetBit(bitmap[pos / 8], pos % 8);
        assert bitmap[..] == s[pos / 8 := SetBit(s[pos / 8], pos % 8)];
        forall q: nat | q < 8 * |s| { UpdateBit(s, pos, q); }
      }
    }

    /** The pages from `page` up to `end`; none if the end lies below. */
    method ClearPages(page: nat, end: nat)
      requires Valid() && page <= pageCount && end <= pageCount
      modifies bitmap
      ensures Changed(old(bitmap[..]), bitmap[..], page, end, false)
      ensures end <= page ==> bitmap[..] == old(bitmap[..])
    {
      var pos := page;
      while pos < end
        invariant page <= pos && (pos <= end || pos == page) && Changed(old(bitmap[..]), bitmap[..], page, pos, false)
        invariant pos == page ==> bitmap[..] == old(bitmap[..])
      {
        ghost var s := bitmap[..];
        bitmap[pos / 8] := ClearBit(bitmap[pos / 8], pos % 8);
        assert bitmap[..] == s[pos / 8 := ClearBit(s[pos / 8], pos % 8)];
        forall q: nat | q < 8 * |s| { UpdateBit(s, pos, q); }
        pos := pos + 1;
      }
    }

    function PageToAddr(page: nat): nat { pool + page * PAGE_SIZE }

    /** bitmap_alloc.  Asking for no pages fails an assertion. */
    method Alloc(n: nat) returns (r: Outcome, ghost p: nat)
      requires Valid()
      modifies bitmap
      ensures r.Stopped? <==> n == 0
      ensures r.NoMemory? <==> 0 < n && NoFreeRun(old(bitmap[..]), pageCount, n)
      ensures !r.Done? ==> bitmap[..] == old(bitmap[..])
      ensures r.Done? ==> r.addr == PageToAddr(p) && FirstFreeRun(old(bitmap[..]), pageCount, p, n)
      ensures r.Done? ==> Changed(old(bitmap[..]), bitmap[..], p, p + n, true)
    {
      p := 0;
      if n == 0 {
        return Stopped, 0;
      }
      var page := FindFree(n);
      if page.None? {
        return NoMemory, 0;
      }
      SetPages(page.value, n);
      return Done(PageToAddr(page.value)), page.value;
    }

    ghost predicate InPool(addr: nat) {
      pool <= addr < pool + pageCount * PAGE_SIZE
    }

    ghost predicate CanFree(s: seq<bv8>, addr: nat, n: nat) {
      && InPool(addr) && 0 < n
      && var p := (addr - pool) / PAGE_SIZE;
         p + n <= pageCount <= 8 * |s| && forall q: nat :: p <= q < p + n ==> Bit(s, q)
    }

    /** The end of the range, a 64-bit sum, wraps below its start. */
    ghost predicate EndWraps(addr: nat, n: nat) {
      InPool(addr) && U64 <= (addr - pool) / PAGE_SIZE + n
    }

    /** bitmap_free: it stops unless every page of the range is allocated; a count that wraps the end of the
        range passes every test and frees nothing. */
    method Free(addr: nat, n: nat) returns (stopped: bool)
      requires Valid() && n < U64
      modifies bitmap
      ensures stopped <==> !CanFree(old(bitmap[..]), addr, n) && !EndWraps(addr, n)
      ensures stopped || EndWraps(addr, n) ==> bitmap[..] == old(bitmap[..])
      ensures CanFree(old(bitmap[..]), addr, n) ==>
                var p := (addr - pool) / PAGE_SIZE; Changed(old(bitmap[..]), bitmap[..], p, p + n, false)
    {
      if addr < pool || pool + pageCount * PAGE_SIZE <= addr {
        return true;
      }
      var page := (addr - pool) / PAGE_SIZE;
      var end := (page + n) % U64;
      if pageCount <= page || pageCount < end || n == 0 {
        return true;
      }
      var pos := page;
      while pos < end
        invariant page <= pos && (pos <= end || pos == page)
        invariant forall q: nat :: page <= q < pos ==> Bit(bitmap[..], q)
      {
        if !Bit(bitmap[..], pos) {
          return true;
        }
        pos := pos + 1;
      }
      ClearPages(page, end);
      return false;
    }
  }
}
