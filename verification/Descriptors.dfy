/** Translation-table descriptors: 64-bit words read and written field by field. */
module Descriptors {
  import opened Common

  /** Frame numbers and page numbers are 36 bits wide: bits 12 to 47 of an address. */
  const FRAMES: nat := 0x10_0000_0000

  // ---------- bit fields ----------

  /** The bit field of w whose lowest bit has weight lo and which takes `width` values. */
  function Field(w: nat, lo: nat, width: nat): nat
    requires 0 < lo && 0 < width
  {
    w / lo % width
  }

  lemma FieldFits(w: nat, lo: nat, width: nat)
    requires 0 < lo && 0 < width
    ensures Field(w, lo, width) * lo <= w
  {
    var q := w / lo;
    Split(w, lo);
    assert q % width <= q by { Split(q, width); NotNegative(width, q / width); }
    Scale(q % width, q, lo);
  }

  lemma NotNegative(a: nat, b: nat)
    ensures 0 <= a * b
  {
  }

  lemma Scale(a: nat, b: nat, c: nat)
    requires a <= b
    ensures a * c <= b * c
  {
  }

  lemma DivOf(a: nat, q: nat, d: nat)
    requires a < d
    ensures (a + d * q) / d == q
  {
    var r := (a + d * q) / d;
    assert d * r <= a + d * q < d * (r + 1);
    assert r < q ==> d * (r + 1) <= d * q;
    assert q < r ==> d * (q + 1) <= d * r;
  }

  /** A word put together from a low part, a field and a high part gives the field back. */
  lemma FieldOf(low: nat, lo: nat, v: nat, width: nat, high: nat)
    requires low < lo && v < width
    ensures Field(low + lo * (v + width * high), lo, width) == v
  {
    DivOf(low, v + width * high, lo);
    DivOf(v, high, width);
    assert (v + width * high) % width == v + width * high - width * ((v + width * high) / width);
  }

  /** Assignment to a bit field: the value is truncated to the field and the other bits stay, so
      on a field that was clear it adds the value. */
  method Assign(w: nat, lo: nat, width: nat, v: nat) returns (r: nat)
    requires 0 < lo && 0 < width
    ensures Field(w, lo, width) == 0 ==> r == w + v % width * lo
    ensures Field(w, lo, width) == 0 && v < width ==> r == w + v * lo
  {
    FieldFits(w, lo, width);
    r := w - Field(w, lo, width) * lo + v % width * lo;
    if v < width {
      DivOf(v, 0, width);
    }
  }

  lemma ClearAbove(w: nat, lo: nat, width: nat)
    requires w < lo && 0 < width
    ensures Field(w, lo, width) == 0
  {
    DivOf(w, 0, lo);
  }

  // ---------- page descriptors ----------

  /** What a page entry says: the frame and the attributes paging_map was given. */
  datatype Leaf = Leaf(frame: nat, attr: nat, ap: nat, sh: nat, pxn: nat, uxn: nat)

  predicate LeafOk(e: Leaf) {
    e.frame < FRAMES && e.attr < 8 && e.ap < 4 && e.sh < 4 && e.pxn < 2 && e.uxn < 2
  }

  /** The page descriptor: valid, page, access flag set, and every unnamed bit clear. */
  function Encode(e: Leaf): nat {
    3 + 0x4 * e.attr + 0x40 * e.ap + 0x100 * e.sh + 0x400 + 0x1000 * e.frame
    + 0x20_0000_0000_0000 * e.pxn + 0x40_0000_0000_0000 * e.uxn
  }

  /** The descriptor as the translation hardware reads it. */
  function Decode(w: nat): Leaf {
    Leaf(Field(w, 0x1000, FRAMES), Field(w, 0x4, 8), Field(w, 0x40, 4), Field(w, 0x100, 4),
         Field(w, 0x20_0000_0000_0000, 2), Field(w, 0x40_0000_0000_0000, 2))
  }

  lemma AttrOf(e: Leaf)
    requires LeafOk(e)
    ensures Field(Encode(e), 0x4, 8) == e.attr
  {
    var high := 2 * e.ap + 8 * e.sh + 32 + 128 * e.frame + 0x1_0000_0000_0000 * e.pxn + 0x2_0000_0000_0000 * e.uxn;
    FieldOf(3, 0x4, e.attr, 8, high);
  }

  lemma ApOf(e: Leaf)
    requires LeafOk(e)
    ensures Field(Encode(e), 0x40, 4) == e.ap
  {
    var high := e.sh + 4 + 16 * e.frame + 0x2000_0000_0000 * e.pxn + 0x4000_0000_0000 * e.uxn;
    FieldOf(3 + 0x4 * e.attr, 0x40, e.ap, 4, high);
  }

  lemma ShOf(e: Leaf)
    requires LeafOk(e)
    ensures Field(Encode(e), 0x100, 4) == e.sh
  {
    var high := 1 + 4 * e.frame + 0x800_0000_0000 * e.pxn + 0x1000_0000_0000 * e.uxn;
    FieldOf(3 + 0x4 * e.attr + 0x40 * e.ap, 0x100, e.sh, 4, high);
  }

  lemma FrameOf(e: Leaf)
    requires LeafOk(e)
    ensures Field(Encode(e), 0x1000, FRAMES) == e.frame
  {
    FieldOf(3 + 0x4 * e.attr + 0x40 * e.ap + 0x100 * e.sh + 0x400, 0x1000, e.frame, FRAMES, 32 * e.pxn + 64 * e.uxn);
  }

  lemma ExecOf(e: Leaf)
    requires LeafOk(e)
    ensures Field(Encode(e), 0x20_0000_0000_0000, 2) == e.pxn
    ensures Field(Encode(e), 0x40_0000_0000_0000, 2) == e.uxn
  {
    var low := 3 + 0x4 * e.attr + 0x40 * e.ap + 0x100 * e.sh + 0x400 + 0x1000 * e.frame;
    FieldOf(low, 0x20_0000_0000_0000, e.pxn, 2, e.uxn);
    FieldOf(low + 0x20_0000_0000_0000 * e.pxn, 0x40_0000_0000_0000, e.uxn, 2, 0);
  }

  /** The descriptor reads back as what was asked for. */
  lemma DecodeEncode(e: Leaf)
    requires LeafOk(e)
    ensures Decode(Encode(e)) == e
  {
    AttrOf(e);
    ApOf(e);
    ShOf(e);
    FrameOf(e);
    ExecOf(e);
  }

  lemma EncodeValid(e: Leaf)
    requires LeafOk(e)
    ensures Field(Encode(e), 1, 2) == 1 && Field(Encode(e), 1, 4) == 3 && 0 < Encode(e) < U64
  {
    FieldOf(0, 1, 3, 4, e.attr + 0x10 * e.ap + 0x40 * e.sh + 0x100 + 0x400 * e.frame
                        + 0x8_0000_0000_0000 * e.pxn + 0x10_0000_0000_0000 * e.uxn);
    var high := 1 + 0x2 * e.attr + 0x20 * e.ap + 0x80 * e.sh + 0x200 + 0x800 * e.frame
                + 0x10_0000_0000_0000 * e.pxn + 0x20_0000_0000_0000 * e.uxn;
    FieldOf(0, 1, 1, 2, high);
  }

  /** The descriptor's bits: 0 and 1 set, attribute index in 2 to 4, access permissions in 6 and 7, shareability in 8
      and 9, the access flag in 10, the frame in 12 to 47, the execute-never bits in 53 and 54, and zero elsewhere. */
  predicate Bits(w: nat, frame: nat, attr: nat, ap: nat, sh: nat, pxn: nat, uxn: nat) {
    && Field(w, 0x1, 4) == 3 && Field(w, 0x4, 8) == attr && Field(w, 0x20, 2) == 0 && Field(w, 0x40, 4) == ap
    && Field(w, 0x100, 4) == sh && Field(w, 0x400, 2) == 1 && Field(w, 0x800, 2) == 0
    && Field(w, 0x1000, FRAMES) == frame && Field(w, 0x1_0000_0000_0000, 32) == 0
    && Field(w, 0x20_0000_0000_0000, 2) == pxn && Field(w, 0x40_0000_0000_0000, 2) == uxn
    && w < 0x80_0000_0000_0000
  }

  lemma LowGaps(e: Leaf)
    requires LeafOk(e)
    ensures Field(Encode(e), 0x20, 2) == 0 && Field(Encode(e), 0x400, 2) == 1 && Field(Encode(e), 0x800, 2) == 0
  {
    var low := 3 + 0x4 * e.attr;
    FieldOf(low, 0x20, 0, 2, e.ap + 4 * e.sh + 16 + 64 * e.frame + 0x8000_0000_0000 * e.pxn
                             + 0x1_0000_0000_0000 * e.uxn);
    var mid := low + 0x40 * e.ap + 0x100 * e.sh;
    FieldOf(mid, 0x400, 1, 2, 2 * e.frame + 0x400_0000_0000 * e.pxn + 0x800_0000_0000 * e.uxn);
    FieldOf(mid + 0x400, 0x800, 0, 2, e.frame + 0x200_0000_0000 * e.pxn + 0x400_0000_0000 * e.uxn);
  }

  lemma HighGap(e: Leaf)
    requires LeafOk(e)
    ensures Field(Encode(e), 0x1_0000_0000_0000, 32) == 0 && Encode(e) < 0x80_0000_0000_0000
  {
    var low := 3 + 0x4 * e.attr + 0x40 * e.ap + 0x100 * e.sh + 0x400 + 0x1000 * e.frame;
    FieldOf(low, 0x1_0000_0000_0000, 0, 32, e.pxn + 2 * e.uxn);
  }

  lemma EncodeBits(e: Leaf)
    requires LeafOk(e)
    ensures Bits(Encode(e), e.frame, e.attr, e.ap, e.sh, e.pxn, e.uxn)
  {
    hide Field;
    hide Encode;
    EncodeValid(e);
    AttrOf(e);
    ApOf(e);
    ShOf(e);
    FrameOf(e);
    ExecOf(e);
    LowGaps(e);
    HighGap(e);
  }

  method AssignAbove(w: nat, lo: nat, width: nat, v: nat) returns (r: nat)
    requires 0 < lo && 0 < width
    ensures w < lo ==> r == w + v % width * lo
    ensures w < lo && v < width ==> r == w + v * lo
  {
    if w < lo {
      ClearAbove(w, lo, width);
    }
    r := Assign(w, lo, width, v);
  }

  /** The nine field writes of paging_map, in its order: on a cleared entry they leave exactly the
      descriptor. */
  method WriteLeaf(raw: nat, e: Leaf) returns (w: nat)
    ensures raw == 0 && LeafOk(e) ==> w == Encode(e)
  {
    w := AssignAbove(raw, 0x2, 2, 1);
    if w == 2 {
      FieldOf(0, 1, 0, 2, 1);
    }
    w := Assign(w, 0x1, 2, 1);
    w := AssignAbove(w, 0x4, 8, e.attr);
    w := AssignAbove(w, 0x40, 4, e.ap);
    w := AssignAbove(w, 0x100, 4, e.sh);
    w := AssignAbove(w, 0x400, 2, 1);
    w := AssignAbove(w, 0x1000, FRAMES, e.frame);
    w := AssignAbove(w, 0x20_0000_0000_0000, 2, e.pxn);
    w := AssignAbove(w, 0x40_0000_0000_0000, 2, e.uxn);
  }

  // ---------- table descriptors ----------

  function TableWord(frame: nat): nat { 3 + 0x1000 * frame }

  /** The word is cleared, then marked valid, a table, and linked to a frame, of which 36 bits are kept. */
  method WriteTable(frame: nat) returns (w: nat)
    ensures w == TableWord(frame % FRAMES)
  {
    w := 0;
    FieldOf(0, 1, 0, 2, 0);
    w := Assign(w, 0x1, 2, 1);
    w := AssignAbove(w, 0x2, 2, 1);
    w := AssignAbove(w, 0x1000, FRAMES, frame);
  }

  lemma ReadTable(frame: nat)
    requires frame < FRAMES
    ensures Field(TableWord(frame), 1, 2) == 1 && Field(TableWord(frame), 1, 4) == 3
    ensures Field(TableWord(frame), 0x1000, FRAMES) == frame
    ensures Field(TableWord(frame), 0x4, 0x400) == 0 && 0 < TableWord(frame) < 0x1_0000_0000_0000
  {
    FieldOf(3, 0x4, 0, 0x400, frame);
    FieldOf(0, 1, 3, 4, 0x400 * frame);
    FieldOf(0, 1, 1, 2, 1 + 0x800 * frame);
    FieldOf(3, 0x1000, frame, FRAMES, 0);
  }

  // ---------- virtual addresses ----------

  /** The page number a walk uses: bits 12 to 47; the bits above are not looked at. */
  function Vpn(va: nat): nat { va / PAGE_SIZE % FRAMES }

  /** The table index at each level, written as the shift-and-mask macros do. */
  function Index0(va: nat): nat { va / 0x80_0000_0000 % 512 }
  function Index1(va: nat): nat { va / 0x4000_0000 % 512 }
  function Index2(va: nat): nat { va / 0x20_0000 % 512 }
  function Index3(va: nat): nat { va / 0x1000 % 512 }

  lemma BelowProduct(s: nat, b: nat, t: nat, c: nat)
    requires s < b && t < c
    ensures s + b * t < b * c
  {
    assert b * t <= b * (c - 1);
    assert b * (c - 1) == b * c - b;
  }

  lemma Regroup(s: nat, b: nat, t: nat, c: nat, r: nat)
    ensures s + b * (t + c * r) == (s + b * t) + (b * c) * r
  {
  }

  lemma Split(a: nat, b: nat)
    requires 0 < b
    ensures a == a % b + b * (a / b) && 0 <= a % b < b
  {
  }

  lemma ModOf(a: nat, q: nat, d: nat)
    requires a < d
    ensures (a + d * q) % d == a
  {
    DivOf(a, q, d);
    Split(a + d * q, d);
  }

  /** Dividing by b and then by c is dividing by b * c. */
  lemma DivDiv(a: nat, b: nat, c: nat)
    requires 0 < b && 0 < c
    ensures 0 < b * c && a / (b * c) == a / b / c
  {
    var q, s := a / b, a % b;
    var r, t := q / c, q % c;
    Split(a, b);
    Split(q, c);
    BelowProduct(s, b, t, c);
    Regroup(s, b, t, c, r);
    DivOf(s + b * t, r, b * c);
  }

  /** Reducing modulo d * m and dividing by d is dividing first and reducing modulo m; the last
      digit survives the reduction. */
  lemma ModDiv(p: nat, d: nat, m: nat)
    requires 0 < m && 0 < d
    ensures 0 < d * m && p % (d * m) / d == p / d % m && p % (d * m) % d == p % d
  {
    var q, s := p / d, p % d;
    var h, v := q / m, q % m;
    Split(p, d);
    Split(q, m);
    BelowProduct(s, d, v, m);
    Regroup(s, d, v, m, h);
    ModOf(s + d * v, h, d * m);
    DivOf(s, v, d);
    ModOf(s, v, d);
  }

  /** The four indices spell the page number, so together they determine it. */
  lemma IndicesSpellVpn(va: nat)
    ensures Index0(va) == Vpn(va) / 0x800_0000 && Index1(va) == Vpn(va) / 0x4_0000 % 512
    ensures Index2(va) == Vpn(va) / 0x200 % 512 && Index3(va) == Vpn(va) % 512
  {
    var p := va / PAGE_SIZE;
    DivDiv(va, 4096, 0x800_0000);
    DivDiv(va, 4096, 0x4_0000);
    DivDiv(va, 4096, 0x200);
    ModDiv(p, 0x800_0000, 512);
    ModDiv(p, 0x4_0000, 0x4_0000);
    ModDiv(p, 0x200, 0x800_0000);
    ModDiv(p / 0x4_0000, 512, 512);
    ModDiv(p / 0x200, 512, 0x4_0000);
  }
}
