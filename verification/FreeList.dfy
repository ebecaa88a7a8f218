/** The kernel heap's free list: first fit, address ordered, with splitting and coalescing.

Memory is a flat sequence of bytes.  A block header is two little-endian 64-bit words stored
in the first sixteen bytes of the block itself, so a header write can in principle destroy any
other header or a caller's payload; the contracts below show that it never does.
*/
module FreeList {
  import opened Common

  type Byte = x: int | 0 <= x < 256

  /** sizeof(FreeListBlockEntry): the size word and the next pointer. */
  const HEADER: nat := 16

  // ---------- bytes and words ----------

  function Pow256(n: nat): (p: nat)
    ensures 0 < p
  {
    if n == 0 then 1 else 256 * Pow256(n - 1)
  }

  /** The value of a little-endian byte string. */
  function Little(w: seq<Byte>): (v: nat)
    ensures v < Pow256(|w|)
  {
    if w == [] then 0 else w[0] as int + 256 * Little(w[1..])
  }

  function LittleBytes(v: nat, n: nat): (w: seq<Byte>)
    requires v < Pow256(n)
    ensures |w| == n && Little(w) == v
  {
    if n == 0 then [] else
      var w := LittleBytes(v / 256, n - 1);
      assert ([v % 256] + w)[1..] == w;
      [v % 256] + w
  }

  lemma Pow256Is64()
    ensures Pow256(8) == U64
  {
    assert Pow256(2) == 0x1_0000;
    assert Pow256(4) == 0x1_0000_0000;
    assert Pow256(6) == 0x1_0000_0000_0000;
  }

  function Get64(m: seq<Byte>, a: nat): (v: nat)
    requires a + 8 <= |m|
    ensures v < U64
  {
    Pow256Is64();
    Little(m[a..a+8])
  }

  /** m' is m after a 64-bit store of v at a: the word reads back, and no other byte moves. */
  ghost predicate Stored(m: seq<Byte>, m': seq<Byte>, a: nat, v: nat) {
    && a + 8 <= |m| && |m'| == |m| && Get64(m', a) == v
    && forall x :: 0 <= x < |m| && (x < a || a + 8 <= x) ==> m'[x] == m[x]
  }

  /** Reads of words that lie outside the bytes that changed are unaffected. */
  lemma Get64Frame(m: seq<Byte>, m': seq<Byte>, a: nat)
    requires |m'| == |m| && a + 8 <= |m|
    requires forall x :: a <= x < a + 8 ==> m'[x] == m[x]
    ensures Get64(m', a) == Get64(m, a)
  {
    assert m'[a..a+8] == m[a..a+8];
  }

  // ---------- blocks ----------

  /** A block spans `size` bytes from `addr`, header included. */
  datatype Block = Block(addr: nat, size: nat) {
    function End(): nat { addr + size }
    predicate Holds(x: nat) { addr <= x < addr + size }
    predicate Apart(b: Block) { End() <= b.addr || b.End() <= addr }
  }

  /** Blocks are real places in memory: not at the null address, room for a header. */
  ghost predicate Placed(bs: seq<Block>, limit: nat) {
    forall i :: 0 <= i < |bs| ==> 0 < bs[i].addr && HEADER <= bs[i].size && bs[i].End() <= limit
  }

  ghost predicate Disjoint(bs: seq<Block>) {
    forall i, j :: 0 <= i < j < |bs| ==> bs[i].Apart(bs[j])
  }

  ghost predicate Sorted(bs: seq<Block>) {
    forall i, j :: 0 <= i < j < |bs| ==> bs[i].End() <= bs[j].addr
  }

  /** Sorted by address with a gap between any two blocks: nothing is left to coalesce. */
  ghost predicate Canonical(bs: seq<Block>) {
    forall i, j :: 0 <= i < j < |bs| ==> bs[i].End() < bs[j].addr
  }

  ghost predicate Covers(bs: seq<Block>, x: nat) {
    exists i :: 0 <= i < |bs| && bs[i].Holds(x)
  }

  /** Every byte of [x, x + n) is covered. */
  ghost predicate Run(bs: seq<Block>, x: nat, n: nat) {
    forall y: nat :: x <= y < x + n ==> Covers(bs, y)
  }

  ghost function Total(bs: seq<Block>): nat {
    if bs == [] then 0 else bs[0].size + Total(bs[1..])
  }

  function Next(bs: seq<Block>, i: nat): nat
    requires i <= |bs|
  {
    if i < |bs| then bs[i].addr else 0
  }

  ghost predicate HeaderIs(m: seq<Byte>, b: Block, next: nat) {
    b.addr + HEADER <= |m| && Get64(m, b.addr) == b.size && Get64(m, b.addr + 8) == next
  }

  ghost predicate LinkAt(m: seq<Byte>, bs: seq<Block>, i: nat)
    requires i < |bs|
  {
    HeaderIs(m, bs[i], Next(bs, i + 1))
  }

  /** Following `next` from `head` visits exactly the blocks `bs`, and each size word is right. */
  ghost predicate Linked(m: seq<Byte>, head: nat, bs: seq<Block>) {
    && Placed(bs, |m|)
    && head == Next(bs, 0)
    && forall i :: 0 <= i < |bs| ==> LinkAt(m, bs, i)
  }

  // ---------- what a canonical list means ----------

  lemma GapNotCovered(bs: seq<Block>, i: nat)
    requires Canonical(bs) && i < |bs|
    ensures !Covers(bs, bs[i].End())
  {
    forall j | 0 <= j < |bs| ensures !bs[j].Holds(bs[i].End()) {
      assert j < i ==> bs[j].End() < bs[i].addr;
      assert i < j ==> bs[i].End() < bs[j].addr;
    }
  }

  /** A run of covered bytes cannot cross a gap, so it lies inside one block. */
  lemma RunInOneBlock(bs: seq<Block>, x: nat, n: nat) returns (i: nat)
    requires Canonical(bs) && 0 < n && Run(bs, x, n)
    ensures i < |bs| && bs[i].addr <= x && x + n <= bs[i].End()
  {
    assert Covers(bs, x);
    i :| 0 <= i < |bs| && bs[i].Holds(x);
    GapNotCovered(bs, i);
  }

  lemma BlockIsRun(bs: seq<Block>, i: nat, n: nat)
    requires i < |bs| && n <= bs[i].size
    ensures Run(bs, bs[i].addr, n)
  {
    forall y: nat | bs[i].addr <= y < bs[i].addr + n ensures Covers(bs, y) {
      assert bs[i].Holds(y);
    }
  }

  ghost predicate SameBytes(a: seq<Block>, b: seq<Block>) {
    forall x: nat :: Covers(a, x) <==> Covers(b, x)
  }

  lemma CoversTail(bs: seq<Block>, x: nat)
    requires bs != []
    ensures Covers(bs, x) <==> bs[0].Holds(x) || Covers(bs[1..], x)
  {
    if Covers(bs[1..], x) {
      var i :| 0 <= i < |bs[1..]| && bs[1..][i].Holds(x);
      assert bs[i + 1].Holds(x);
    }
    if Covers(bs, x) && !bs[0].Holds(x) {
      var i :| 0 <= i < |bs| && bs[i].Holds(x);
      assert bs[1..][i - 1].Holds(x);
    }
  }

  lemma SameHead(a: seq<Block>, b: seq<Block>, limit: nat)
    requires a != [] && b != [] && Canonical(a) && Canonical(b) && Placed(a, limit) && Placed(b, limit)
    requires SameBytes(a, b)
    ensures a[0].addr <= b[0].addr ==> b[0].addr == a[0].addr && b[0].End() >= a[0].End()
  {
    if a[0].addr <= b[0].addr {
      BlockIsRun(a, 0, a[0].size);
      assert Run(b, a[0].addr, a[0].size);
      var i := RunInOneBlock(b, a[0].addr, a[0].size);
    }
  }

  /** The free list is determined by the set of free bytes alone. */
  lemma {:induction false} CanonicalIsUnique(a: seq<Block>, b: seq<Block>, limit: nat)
    requires Canonical(a) && Canonical(b) && Placed(a, limit) && Placed(b, limit)
    requires SameBytes(a, b)
    ensures a == b
    decreases |a|
  {
    if a == [] || b == [] {
      if a != [] { assert a[0].Holds(a[0].addr); assert Covers(a, a[0].addr); }
      if b != [] { assert b[0].Holds(b[0].addr); assert Covers(b, b[0].addr); }
    } else {
      SameHead(a, b, limit);
      SameHead(b, a, limit);
      assert a[0] == b[0];
      forall x: nat ensures Covers(a[1..], x) <==> Covers(b[1..], x) {
        CoversTail(a, x);
        CoversTail(b, x);
      }
      CanonicalIsUnique(a[1..], b[1..], limit);
      assert a == [a[0]] + a[1..] && b == [b[0]] + b[1..];
    }
  }

  // ---------- sums of disjoint blocks ----------

  ghost function Span(lo: nat, n: nat): (s: set<nat>)
    ensures |s| == n
    ensures forall x :: x in s <==> lo <= x < lo + n
  {
    if n == 0 then {} else Span(lo, n - 1) + {lo + n - 1}
  }

  ghost function Bytes(bs: seq<Block>): set<nat> {
    if bs == [] then {} else Span(bs[0].addr, bs[0].size) + Bytes(bs[1..])
  }

  lemma BytesAreCovered(bs: seq<Block>, x: nat)
    ensures x in Bytes(bs) <==> Covers(bs, x)
  {
    if bs != [] {
      CoversTail(bs, x);
    }
  }

  lemma {:induction false} TotalIsByteCount(bs: seq<Block>)
    requires Disjoint(bs)
    ensures Total(bs) == |Bytes(bs)|
  {
    if bs != [] {
      TotalIsByteCount(bs[1..]);
      forall x | x in Bytes(bs[1..]) ensures !bs[0].Holds(x) {
        BytesAreCovered(bs[1..], x);
        var i :| 0 <= i < |bs[1..]| && bs[1..][i].Holds(x);
        assert bs[0].Apart(bs[i + 1]);
      }
      assert Span(bs[0].addr, bs[0].size) !! Bytes(bs[1..]);
    }
  }

  /** Disjoint blocks below `limit`, none at address zero, hold fewer than `limit` bytes. */
  lemma TotalBounded(bs: seq<Block>, limit: nat)
    requires Disjoint(bs) && Placed(bs, limit)
    ensures bs != [] ==> Total(bs) < limit
  {
    if bs == [] { return; }
    TotalIsByteCount(bs);
    var all := Span(1, limit - 1);
    forall x | x in Bytes(bs) ensures x in all {
      BytesAreCovered(bs, x);
    }
    assert Bytes(bs) <= all;
    SubsetSize(Bytes(bs), all);
  }

  lemma SubsetSize(a: set<nat>, b: set<nat>)
    requires a <= b
    ensures |a| <= |b|
  {
    assert b == a + (b - a);
  }

  lemma {:induction false} TotalConcat(a: seq<Block>, b: seq<Block>)
    ensures Total(a + b) == Total(a) + Total(b)
  {
    if a == [] {
      assert a + b == b;
    } else {
      TotalConcat(a[1..], b);
      assert (a + b)[1..] == a[1..] + b;
    }
  }

  // ---------- editing a list of blocks ----------

  function Without(bs: seq<Block>, i: nat): (r: seq<Block>)
    requires i < |bs|
    ensures |r| == |bs| - 1
    ensures forall j {:trigger r[j]} :: 0 <= j < |r| ==> r[j] == if j < i then bs[j] else bs[j+1]
  {
    bs[..i] + bs[i+1..]
  }

  function With(bs: seq<Block>, i: nat, b: Block): (r: seq<Block>)
    requires i <= |bs|
    ensures |r| == |bs| + 1
    ensures forall j {:trigger r[j]} :: 0 <= j < |r| ==> r[j] == if j < i then bs[j] else if j == i then b else bs[j-1]
  {
    bs[..i] + [b] + bs[i..]
  }

  /** Blocks i and i + 1 become one. */
  function Merged(bs: seq<Block>, i: nat): (r: seq<Block>)
    requires i + 1 < |bs|
    ensures |r| == |bs| - 1 && r[i] == Block(bs[i].addr, bs[i].size + bs[i+1].size)
    ensures forall j {:trigger r[j]} :: 0 <= j < |r| && j != i ==> r[j] == if j < i then bs[j] else bs[j+1]
  {
    bs[..i] + [Block(bs[i].addr, bs[i].size + bs[i+1].size)] + bs[i+2..]
  }

  lemma {:induction false} WithoutTotal(bs: seq<Block>, i: nat)
    requires i < |bs|
    ensures Total(Without(bs, i)) == Total(bs) - bs[i].size
  {
    if i == 0 {
      assert Without(bs, 0) == bs[1..];
    } else {
      WithoutTotal(bs[1..], i - 1);
      assert Without(bs, i)[1..] == Without(bs[1..], i - 1);
    }
  }

  lemma WithoutCovers(bs: seq<Block>, i: nat, x: nat)
    requires i < |bs|
    ensures Covers(bs, x) <==> bs[i].Holds(x) || Covers(Without(bs, i), x)
  {
    var r := Without(bs, i);
    if k :| 0 <= k < |bs| && bs[k].Holds(x) {
      if k < i { assert r[k].Holds(x); } else if k > i { assert r[k-1].Holds(x); }
    }
    if k :| 0 <= k < |r| && r[k].Holds(x) {
      if k < i { assert bs[k].Holds(x); } else { assert bs[k+1].Holds(x); }
    }
  }

  lemma WithoutEffect(bs: seq<Block>, i: nat)
    requires i < |bs|
    ensures Total(Without(bs, i)) == Total(bs) - bs[i].size
    ensures forall x: nat :: Covers(bs, x) <==> bs[i].Holds(x) || Covers(Without(bs, i), x)
  {
    WithoutTotal(bs, i);
    forall x: nat ensures Covers(bs, x) <==> bs[i].Holds(x) || Covers(Without(bs, i), x) {
      WithoutCovers(bs, i, x);
    }
  }

  lemma WithEffect(bs: seq<Block>, i: nat, b: Block)
    requires i <= |bs|
    ensures Total(With(bs, i, b)) == Total(bs) + b.size
    ensures forall x: nat :: Covers(With(bs, i, b), x) <==> b.Holds(x) || Covers(bs, x)
  {
    assert Without(With(bs, i, b), i) == bs;
    WithoutEffect(With(bs, i, b), i);
  }

  function Coalesced(bs: seq<Block>, k: nat): seq<Block>
    requires k < |bs|
  {
    if k + 1 < |bs| && bs[k].End() == bs[k+1].addr then Merged(bs, k) else bs
  }

  lemma MergedEffect(bs: seq<Block>, i: nat)
    requires i + 1 < |bs| && bs[i].End() == bs[i+1].addr
    ensures Total(Merged(bs, i)) == Total(bs)
    ensures SameBytes(Merged(bs, i), bs)
  {
    var b := Merged(bs, i)[i];
    var rest := Without(Without(bs, i + 1), i);
    assert Merged(bs, i) == With(rest, i, b);
    assert Without(bs, i + 1)[i] == bs[i];
    WithEffect(rest, i, b);
    WithoutEffect(bs, i + 1);
    WithoutEffect(Without(bs, i + 1), i);
  }

  // ---------- headers under memory changes ----------

  ghost predicate SameOutside(m: seq<Byte>, m': seq<Byte>, b: Block) {
    |m'| == |m| && forall x :: 0 <= x < |m| && !b.Holds(x) ==> m'[x] == m[x]
  }

  lemma HeaderFrame(m: seq<Byte>, m': seq<Byte>, changed: Block, b: Block, next: nat)
    requires SameOutside(m, m', changed) && HeaderIs(m, b, next)
    requires b.addr + HEADER <= changed.addr || changed.End() <= b.addr
    ensures HeaderIs(m', b, next)
  {
    Get64Frame(m, m', b.addr);
    Get64Frame(m, m', b.addr + 8);
  }

  lemma SortedMerged(bs: seq<Block>, k: nat)
    requires Sorted(bs) && k + 1 < |bs| && bs[k].End() == bs[k+1].addr
    ensures Sorted(Merged(bs, k))
  {
    var r := Merged(bs, k);
    forall i, j | 0 <= i < j < |r| ensures r[i].End() <= r[j].addr {
      var i' := if i < k then i else i + 1;
      var j' := if j <= k then j else j + 1;
      assert bs[i'].End() <= bs[j'].addr;
    }
  }

  lemma LinkAtMerged(m: seq<Byte>, m': seq<Byte>, bs: seq<Block>, k: nat, i: nat)
    requires k + 1 < |bs| && i < |bs| - 1 && i != k
    requires Placed(bs, |m|) && LinkAt(m, bs, if i < k then i else i + 1) && SameOutside(m, m', bs[k])
    requires bs[k].Apart(bs[if i < k then i else i + 1])
    ensures LinkAt(m', Merged(bs, k), i)
  {
    var r := Merged(bs, k);
    var j := if i < k then i else i + 1;
    assert r[i] == bs[j] && Next(r, i + 1) == Next(bs, j + 1);
    HeaderFrame(m, m', bs[k], bs[j], Next(bs, j + 1));
  }

  /** The two stores of a merge: the left header then has both sizes and the right block's link. */
  lemma MergeStores(m: seq<Byte>, m1: seq<Byte>, m2: seq<Byte>, left: Block, right: Block, next: nat)
    requires HeaderIs(m, left, right.addr) && HeaderIs(m, right, next) && HEADER <= left.size
             && left.End() == right.addr
    requires Stored(m, m1, left.addr, left.size + right.size)
    requires Stored(m1, m2, left.addr + 8, Get64(m1, right.addr + 8))
    ensures HeaderIs(m2, Block(left.addr, left.size + right.size), next) && SameOutside(m, m2, left)
  {
    Get64Frame(m, m1, right.addr + 8);
    Get64Frame(m1, m2, left.addr);
  }

  lemma LinkedMerged(m: seq<Byte>, m': seq<Byte>, head: nat, bs: seq<Block>, k: nat)
    requires Linked(m, head, bs) && Sorted(bs)
    requires k + 1 < |bs| && bs[k].End() == bs[k+1].addr
    requires SameOutside(m, m', bs[k]) && HeaderIs(m', Merged(bs, k)[k], Next(bs, k + 2))
    ensures Linked(m', head, Merged(bs, k))
  {
    var r := Merged(bs, k);
    forall i | 0 <= i < |r| ensures LinkAt(m', r, i) {
      if i != k {
        var j := if i < k then i else i + 1;
        assert if j < k then bs[j].End() <= bs[k].addr else bs[k].End() <= bs[j].addr;
        LinkAtMerged(m, m', bs, k, i);
      }
    }
  }

  /** Splice block b in at position j: its own header and its predecessor's are written. */
  ghost predicate Spliced(m: seq<Byte>, m1: seq<Byte>, m2: seq<Byte>, bs: seq<Block>, j: nat, b: Block) {
    && j <= |bs|
    && SameOutside(m, m1, b) && HeaderIs(m1, b, Next(bs, j))
    && if j == 0 then m2 == m1 else SameOutside(m1, m2, bs[j-1]) && HeaderIs(m2, bs[j-1], b.addr)
  }

  lemma OtherHeader(m: seq<Byte>, m1: seq<Byte>, m2: seq<Byte>, bs: seq<Block>, j: nat, b: Block, k: nat)
    requires Spliced(m, m1, m2, bs, j, b) && Placed(bs, |m|)
    requires k < |bs| && k + 1 != j && LinkAt(m, bs, k)
    requires bs[k].Apart(b) && (j > 0 ==> bs[k].Apart(bs[j-1]))
    ensures HeaderIs(m2, bs[k], Next(bs, k + 1))
  {
    HeaderFrame(m, m1, b, bs[k], Next(bs, k + 1));
    if j > 0 {
      HeaderFrame(m1, m2, bs[j-1], bs[k], Next(bs, k + 1));
    }
  }

  lemma LinkAtNew(m: seq<Byte>, m1: seq<Byte>, m2: seq<Byte>, bs: seq<Block>, j: nat, b: Block)
    requires Placed(bs, |m|) && Spliced(m, m1, m2, bs, j, b) && HEADER <= b.size && b.End() <= |m|
    requires j > 0 ==> bs[j-1].End() <= b.addr
    ensures HeaderIs(m2, b, Next(bs, j))
  {
    if j > 0 {
      HeaderFrame(m1, m2, bs[j-1], b, Next(bs, j));
    }
  }

  /** Which block and which link stand at i once b is in at j. */
  lemma WithNext(bs: seq<Block>, j: nat, b: Block, i: nat)
    requires j <= |bs| && i <= |bs|
    ensures var r := With(bs, j, b);
            && r[i] == (if i < j then bs[i] else if i == j then b else bs[i-1])
            && Next(r, i + 1) == if i + 1 < j then Next(bs, i + 1) else if i + 1 == j then b.addr else Next(bs, i)
  {
  }

  lemma WithSorted(bs: seq<Block>, j: nat, b: Block, k: nat)
    requires j <= |bs| && k < |bs| && k + 1 != j && Sorted(With(bs, j, b))
    ensures bs[k].Apart(b) && (j > 0 ==> bs[k].Apart(bs[j-1]))
  {
    var r, i := With(bs, j, b), if k < j then k else k + 1;
    assert r[i] == bs[k] && r[j] == b && (j > 0 ==> r[j-1] == bs[j-1]);
  }

  lemma LinkAtWith(m: seq<Byte>, m1: seq<Byte>, m2: seq<Byte>, bs: seq<Block>, j: nat, b: Block, i: nat)
    requires Placed(bs, |m|) && Spliced(m, m1, m2, bs, j, b) && Sorted(With(bs, j, b)) && i <= |bs|
    requires HEADER <= b.size && b.End() <= |m|
    requires i != j ==> LinkAt(m, bs, if i < j then i else i - 1)
    ensures HeaderIs(m2, With(bs, j, b)[i], Next(With(bs, j, b), i + 1))
  {
    hide HeaderIs;
    hide SameOutside;
    WithNext(bs, j, b, i);
    if i == j {
      var r := With(bs, j, b);
      assert j > 0 ==> r[j-1].End() <= r[j].addr && r[j-1] == bs[j-1];
      LinkAtNew(m, m1, m2, bs, j, b);
    } else if i + 1 != j {
      hide With;
      var k := if i < j then i else i - 1;
      WithSorted(bs, j, b, k);
      OtherHeader(m, m1, m2, bs, j, b, k);
    }
  }

  lemma LinkedWith(m: seq<Byte>, m1: seq<Byte>, m2: seq<Byte>, head: nat, bs: seq<Block>, j: nat, b: Block)
    requires Linked(m, head, bs) && Spliced(m, m1, m2, bs, j, b)
    requires Sorted(With(bs, j, b)) && 0 < b.addr && HEADER <= b.size && b.End() <= |m|
    ensures Linked(m2, if j == 0 then b.addr else head, With(bs, j, b))
  {
    hide HeaderIs;
    var r := With(bs, j, b);
    forall i | 0 <= i < |r| ensures LinkAt(m2, r, i) {
      if i != j {
        assert LinkAt(m, bs, if i < j then i else i - 1);
      }
      LinkAtWith(m, m1, m2, bs, j, b, i);
    }
  }

  // ---------- where a block goes in the list ----------

  ghost predicate Position(bs: seq<Block>, addr: nat, j: nat) {
    && j <= |bs|
    && (forall i :: 0 <= i < j ==> bs[i].addr < addr)
    && (forall i :: j <= i < |bs| ==> addr < bs[i].addr)
  }

  lemma SortedWith(bs: seq<Block>, j: nat, b: Block)
    requires Canonical(bs) && Position(bs, b.addr, j)
    requires forall i :: 0 <= i < |bs| ==> bs[i].Apart(b)
    ensures Sorted(With(bs, j, b))
    ensures forall k, l :: 0 <= k < l < |bs| + 1 && k != j && l != j ==>
            With(bs, j, b)[k].End() < With(bs, j, b)[l].addr
  {
    var r := With(bs, j, b);
    forall k, l | 0 <= k < l < |r|
      ensures r[k].End() <= r[l].addr && (k != j && l != j ==> r[k].End() < r[l].addr)
    {
      if k == j {
        assert bs[l-1].Apart(b);
      } else if l == j {
        assert bs[k].Apart(b);
      } else {
        var k' := if k < j then k else k - 1;
        var l' := if l < j then l else l - 1;
        assert bs[k'].End() < bs[l'].addr;
      }
    }
  }

  /** Splice in, merge with the successor, then merge with the predecessor. */
  function Inserted(bs: seq<Block>, j: nat, b: Block): seq<Block>
    requires j <= |bs|
  {
    var r := Coalesced(With(bs, j, b), j);
    if j == 0 then r else Coalesced(r, j - 1)
  }

  lemma InsertedCanonical(bs: seq<Block>, j: nat, b: Block)
    requires Canonical(bs) && Position(bs, b.addr, j)
    requires forall i :: 0 <= i < |bs| ==> bs[i].Apart(b)
    ensures Canonical(Inserted(bs, j, b))
  {
    MergedWithSuccessor(bs, j, b);
    if 0 < j {
      MergedWithPredecessor(Coalesced(With(bs, j, b), j), j);
    }
  }

  lemma InsertedEffect(bs: seq<Block>, j: nat, b: Block)
    requires j <= |bs|
    ensures Total(Inserted(bs, j, b)) == Total(bs) + b.size
    ensures forall x: nat :: Covers(Inserted(bs, j, b), x) <==> b.Holds(x) || Covers(bs, x)
  {
    var r0 := With(bs, j, b);
    WithEffect(bs, j, b);
    var r1 := Coalesced(r0, j);
    if r1 != r0 {
      MergedEffect(r0, j);
    }
    if 0 < j && Coalesced(r1, j - 1) != r1 {
      MergedEffect(r1, j - 1);
    }
  }

  /** Only block j may still touch its predecessor. */
  ghost predicate AlmostCanonical(bs: seq<Block>, j: nat) {
    forall k, l :: 0 <= k < l < |bs| ==> if l == j then bs[k].End() <= bs[l].addr else bs[k].End() < bs[l].addr
  }

  lemma MergedWithSuccessor(bs: seq<Block>, j: nat, b: Block)
    requires Canonical(bs) && Position(bs, b.addr, j)
    requires forall i :: 0 <= i < |bs| ==> bs[i].Apart(b)
    ensures AlmostCanonical(Coalesced(With(bs, j, b), j), j)
  {
    var r0 := With(bs, j, b);
    SortedWith(bs, j, b);
    if j + 1 < |r0| && r0[j].End() == r0[j+1].addr {
      SuccessorMerged(r0, j);
    } else {
      SuccessorApart(r0, j);
    }
  }

  /** Sorted, with a gap between any two blocks other than block j. */
  ghost predicate ApartButFor(bs: seq<Block>, j: nat) {
    && Sorted(bs)
    && forall k, l :: 0 <= k < l < |bs| && k != j && l != j ==> bs[k].End() < bs[l].addr
  }

  lemma SuccessorMerged(r0: seq<Block>, j: nat)
    requires ApartButFor(r0, j) && j + 1 < |r0| && r0[j].End() == r0[j+1].addr
    ensures AlmostCanonical(Merged(r0, j), j)
  {
    var r1 := Merged(r0, j);
    forall k, l | 0 <= k < l < |r1|
      ensures if l == j then r1[k].End() <= r1[l].addr else r1[k].End() < r1[l].addr
    {
      var k' := if k < j then k else k + 1;
      var l' := if l <= j then l else l + 1;
      assert r1[k].End() == r0[k'].End() && r1[l].addr == r0[l'].addr;
    }
  }

  lemma SuccessorApart(r0: seq<Block>, j: nat)
    requires ApartButFor(r0, j) && j < |r0| && (j + 1 < |r0| ==> r0[j].End() != r0[j+1].addr)
    ensures AlmostCanonical(r0, j)
  {
    forall k, l | 0 <= k < l < |r0|
      ensures if l == j then r0[k].End() <= r0[l].addr else r0[k].End() < r0[l].addr
    {
      if k == j {
        assert r0[j].End() <= r0[j+1].addr;
        if l > j + 1 { assert r0[j+1].End() < r0[l].addr; }
      }
    }
  }

  lemma MergedWithPredecessor(bs: seq<Block>, j: nat)
    requires AlmostCanonical(bs, j) && 0 < j < |bs|
    ensures Canonical(Coalesced(bs, j - 1))
  {
    var r := Coalesced(bs, j - 1);
    forall k, l | 0 <= k < l < |r| ensures r[k].End() < r[l].addr {
      if |r| == |bs| {
        assert r == bs;
        if l == j && k < j - 1 {
          assert bs[k].End() < bs[j-1].addr && bs[j-1].End() <= bs[j].addr;
        }
      } else {
        assert r == Merged(bs, j - 1);
        var k' := if k < j - 1 then k else k + 1;
        var l' := if l < j then l else l + 1;
        assert r[k].End() == bs[k'].End() && r[l].addr == bs[l'].addr;
      }
    }
  }

  /** A change that stays clear of every listed block leaves the list as it was. */
  lemma LinkedFrame(m: seq<Byte>, m': seq<Byte>, head: nat, bs: seq<Block>, changed: Block)
    requires Linked(m, head, bs) && SameOutside(m, m', changed)
    requires forall i :: 0 <= i < |bs| ==> bs[i].Apart(changed)
    ensures Linked(m', head, bs)
  {
    forall i | 0 <= i < |bs| ensures LinkAt(m', bs, i) {
      assert LinkAt(m, bs, i);
      HeaderFrame(m, m', changed, bs[i], Next(bs, i + 1));
    }
  }

  /** Block i gives up its front part; what is left, nb, ends where block i ended. */
  lemma LinkedShrunk(m: seq<Byte>, m1: seq<Byte>, m2: seq<Byte>, head: nat, bs: seq<Block>, i: nat, nb: Block)
    requires Linked(m, head, bs) && Canonical(bs) && i < |bs|
    requires bs[i].addr <= nb.addr && nb.End() == bs[i].End() && HEADER <= nb.size
    requires SameOutside(m, m1, bs[i]) && HeaderIs(m1, nb, Next(bs, i + 1))
    requires if i == 0 then m2 == m1 else SameOutside(m1, m2, bs[i-1]) && HeaderIs(m2, bs[i-1], nb.addr)
    ensures Linked(m2, if i == 0 then nb.addr else head, bs[i := nb])
  {
    assert |m2| == |m1| == |m|;
    hide HeaderIs;
    hide SameOutside;
    var r := bs[i := nb];
    forall k | 0 <= k < |r| ensures LinkAt(m2, r, k) {
      if k != i && k + 1 != i {
        assert LinkAt(m, bs, k);
        assert if k < i then bs[k].End() < bs[i].addr else bs[i].End() < bs[k].addr;
        assert i > 0 ==> if k < i - 1 then bs[k].End() < bs[i-1].addr else bs[i-1].End() < bs[k].addr;
        HeaderFrame(m, m1, bs[i], bs[k], Next(bs, k + 1));
        if i > 0 {
          HeaderFrame(m1, m2, bs[i-1], bs[k], Next(bs, k + 1));
        }
      } else if k == i && i > 0 {
        HeaderFrame(m1, m2, bs[i-1], nb, Next(bs, i + 1));
      }
    }
  }

  lemma LinkAtWithout(m: seq<Byte>, m': seq<Byte>, bs: seq<Block>, i: nat, k: nat)
    requires Placed(bs, |m|) && i < |bs| && k < |bs| - 1 && k + 1 != i
    requires LinkAt(m, bs, if k < i then k else k + 1)
    requires if i == 0 then m' == m else SameOutside(m, m', bs[i-1]) && bs[i-1].Apart(bs[if k < i then k else k + 1])
    ensures LinkAt(m', Without(bs, i), k)
  {
    var r := Without(bs, i);
    var k' := if k < i then k else k + 1;
    assert r[k] == bs[k'] && Next(r, k + 1) == Next(bs, k' + 1);
    if i > 0 {
      HeaderFrame(m, m', bs[i-1], bs[k'], Next(bs, k' + 1));
    }
  }

  lemma LinkedWithout(m: seq<Byte>, m': seq<Byte>, head: nat, bs: seq<Block>, i: nat)
    requires Linked(m, head, bs) && Canonical(bs) && i < |bs|
    requires if i == 0 then m' == m else SameOutside(m, m', bs[i-1]) && HeaderIs(m', bs[i-1], Next(bs, i + 1))
    ensures Linked(m', if i == 0 then Next(bs, 1) else head, Without(bs, i))
  {
    var r := Without(bs, i);
    forall k | 0 <= k < |r| ensures LinkAt(m', r, k) {
      if k + 1 != i {
        var k' := if k < i then k else k + 1;
        if i > 0 {
          assert if k' < i - 1 then bs[k'].End() < bs[i-1].addr else bs[i-1].End() < bs[k'].addr;
        }
        LinkAtWithout(m, m', bs, i, k);
      }
    }
  }

  /** Taking [bs[i].addr, nb.addr) off block i removes exactly those bytes. */
  lemma ShrunkEffect(bs: seq<Block>, i: nat, nb: Block)
    requires Canonical(bs) && i < |bs| && bs[i].addr <= nb.addr && nb.End() == bs[i].End()
    ensures Canonical(bs[i := nb])
    ensures Total(bs[i := nb]) == Total(bs) - (nb.addr - bs[i].addr)
    ensures forall x: nat :: Covers(bs[i := nb], x) <==> Covers(bs, x) && !(bs[i].addr <= x < nb.addr)
  {
    var r := bs[i := nb];
    assert Without(r, i) == Without(bs, i);
    WithoutTotal(r, i);
    WithoutTotal(bs, i);
    forall x: nat ensures Covers(r, x) <==> Covers(bs, x) && !(bs[i].addr <= x < nb.addr) {
      WithoutCovers(r, i, x);
      WithoutCovers(bs, i, x);
      if bs[i].Holds(x) {
        NotCoveredTwice(bs, i, x);
      }
    }
  }

  lemma NotCoveredTwice(bs: seq<Block>, i: nat, x: nat)
    requires Canonical(bs) && i < |bs| && bs[i].Holds(x)
    ensures !Covers(Without(bs, i), x)
  {
    var r := Without(bs, i);
    if k :| 0 <= k < |r| && r[k].Holds(x) {
      assert if k < i then bs[k].End() < bs[i].addr else bs[i].End() < bs[k+1].addr;
    }
  }

  lemma TakenEffect(bs: seq<Block>, i: nat)
    requires Canonical(bs) && i < |bs|
    ensures Canonical(Without(bs, i))
    ensures Total(Without(bs, i)) == Total(bs) - bs[i].size
    ensures forall x: nat :: Covers(Without(bs, i), x) <==> Covers(bs, x) && !bs[i].Holds(x)
  {
    WithoutTotal(bs, i);
    forall x: nat ensures Covers(Without(bs, i), x) <==> Covers(bs, x) && !bs[i].Holds(x) {
      WithoutCovers(bs, i, x);
      if bs[i].Holds(x) {
        NotCoveredTwice(bs, i, x);
      }
    }
  }

  lemma SplitLinks(m: seq<Byte>, m0: seq<Byte>, m1: seq<Byte>, m2: seq<Byte>, m3: seq<Byte>,
                   head: nat, bs: seq<Block>, i: nat, nb: Block)
    requires Linked(m, head, bs) && Canonical(bs) && i < |bs|
    requires bs[i].addr + HEADER <= nb.addr && nb.End() == bs[i].End() && HEADER <= nb.size
    requires Stored(m, m0, nb.addr, nb.size) && Stored(m0, m1, nb.addr + 8, Get64(m0, bs[i].addr + 8))
    requires if i == 0 then m2 == m1 else Stored(m1, m2, bs[i-1].addr + 8, nb.addr)
    requires Stored(m2, m3, bs[i].addr, nb.addr - bs[i].addr)
    ensures Linked(m3, if i == 0 then nb.addr else head, bs[i := nb])
  {
    assert LinkAt(m, bs, i);
    Get64Frame(m, m0, bs[i].addr + 8);
    Get64Frame(m0, m1, nb.addr);
    if 0 < i {
      assert LinkAt(m, bs, i - 1);
      HeaderFrame(m, m1, bs[i], bs[i-1], bs[i].addr);
      Get64Frame(m1, m2, bs[i-1].addr);
    }
    LinkedShrunk(m, m1, m2, head, bs, i, nb);
    LinkedFrame(m2, m3, if i == 0 then nb.addr else head, bs[i := nb], Block(bs[i].addr, 8));
  }

  // ---------- free blocks against live blocks ----------

  ghost predicate Separate(free: seq<Block>, live: seq<Block>) {
    forall j, x: nat :: 0 <= j < |live| && live[j].Holds(x) ==> !Covers(free, x)
  }

  lemma ApartFromFree(free: seq<Block>, b: Block, limit: nat)
    requires Placed(free, limit) && 0 < b.size
    requires forall x: nat :: b.Holds(x) ==> !Covers(free, x)
    ensures forall i :: 0 <= i < |free| ==> free[i].Apart(b)
  {
    forall i | 0 <= i < |free| ensures free[i].Apart(b) {
      var x := if free[i].addr < b.addr then b.addr else free[i].addr;
      if free[i].Holds(x) {
        assert Covers(free, x);
      }
    }
  }

  ghost predicate SomeRun(bs: seq<Block>, n: nat) {
    exists x: nat :: Run(bs, x, n)
  }

  lemma NoRunWithoutFit(bs: seq<Block>, n: nat, limit: nat)
    requires Canonical(bs) && Placed(bs, limit) && 0 < n
    ensures (forall k :: 0 <= k < |bs| ==> bs[k].size < n) ==> !SomeRun(bs, n)
    ensures limit <= n ==> !SomeRun(bs, n)
  {
    if x: nat :| Run(bs, x, n) {
      var i := RunInOneBlock(bs, x, n);
    }
  }

  ghost predicate LowestRun(bs: seq<Block>, n: nat, a: nat) {
    forall x: nat :: Run(bs, x, n) ==> a <= x
  }

  lemma FirstFitIsLowest(bs: seq<Block>, i: nat, n: nat)
    requires Canonical(bs) && i < |bs| && 0 < n
    requires forall k :: 0 <= k < i ==> bs[k].size < n
    ensures LowestRun(bs, n, bs[i].addr)
  {
    forall x: nat | Run(bs, x, n) ensures bs[i].addr <= x {
      var k := RunInOneBlock(bs, x, n);
    }
  }

  /** b starts at the lowest address where the request fits, and wastes less than a header. */
  ghost predicate BestFit(bs: seq<Block>, size: nat, b: Block) {
    && size + HEADER <= b.size < size + 2 * HEADER
    && Run(bs, b.addr, size + HEADER) && LowestRun(bs, size + HEADER, b.addr)
  }

  lemma FitIsBest(bs: seq<Block>, i: nat, size: nat, b: Block)
    requires Canonical(bs) && i < |bs| && size + HEADER <= bs[i].size
    requires forall k :: 0 <= k < i ==> bs[k].size < size + HEADER
    requires b.addr == bs[i].addr && size + HEADER <= b.size < size + 2 * HEADER
    ensures BestFit(bs, size, b)
  {
    BlockIsRun(bs, i, size + HEADER);
    FirstFitIsLowest(bs, i, size + HEADER);
  }

  /** The live blocks are real, disjoint from each other and from the list, and keep their size words. */
  ghost predicate LiveOk(m: seq<Byte>, free: seq<Block>, live: seq<Block>) {
    && Placed(live, |m|) && Disjoint(live) && Separate(free, live)
    && forall i :: 0 <= i < |live| ==> Get64(m, live[i].addr) == live[i].size
  }

  /** free' is free with exactly the bytes of b, all of which it had, taken out. */
  ghost predicate Carved(free: seq<Block>, free': seq<Block>, b: Block) {
    && (forall x: nat :: b.Holds(x) ==> Covers(free, x))
    && (forall x: nat :: Covers(free', x) <==> Covers(free, x) && !b.Holds(x))
  }

  /** Memory changed, if at all, only at bytes that bs covers. */
  ghost predicate SameBut(m: seq<Byte>, m': seq<Byte>, bs: seq<Block>) {
    |m'| == |m| && forall x: nat :: x < |m| && !Covers(bs, x) ==> m'[x] == m[x]
  }

  /** A granted request: one new live block, the best fit, carved off the list, nothing else touched. */
  ghost predicate Granted(free: seq<Block>, live: seq<Block>, m: seq<Byte>,
                          free': seq<Block>, live': seq<Block>, m': seq<Byte>, size: nat, ptr: nat) {
    && |live'| == |live| + 1 && live' == live + [Last(live')] && ptr == Last(live').addr + HEADER
    && BestFit(free, size, Last(live'))
    && Carved(free, free', Last(live')) && SameBut(m, m', free)
  }

  lemma ApartFromLive(live: seq<Block>, b: Block, limit: nat)
    requires Placed(live, limit) && 0 < b.size
    requires forall j, x: nat :: 0 <= j < |live| && live[j].Holds(x) ==> !b.Holds(x)
    ensures forall j :: 0 <= j < |live| ==> live[j].Apart(b)
  {
    forall j | 0 <= j < |live| ensures live[j].Apart(b) {
      var x := if live[j].addr < b.addr then b.addr else live[j].addr;
      assert live[j].Holds(x) ==> !b.Holds(x);
    }
  }

  lemma LiveAfterCarve(free: seq<Block>, free': seq<Block>, live: seq<Block>, b: Block, m: seq<Byte>, m': seq<Byte>)
    requires LiveOk(m, free, live) && Carved(free, free', b) && SameBut(m, m', free)
    requires 0 < b.addr && HEADER <= b.size && b.End() <= |m| && Get64(m', b.addr) == b.size
    ensures LiveOk(m', free', live + [b])
  {
    ApartFromLive(live, b, |m|);
    forall i | 0 <= i < |live| ensures Get64(m', live[i].addr) == live[i].size {
      assert forall x: nat :: live[i].addr <= x < live[i].addr + 8 ==> live[i].Holds(x);
      Get64Frame(m, m', live[i].addr);
    }
  }

  /** free' is free with the bytes of b, none of which it had, put back. */
  ghost predicate Returned(free: seq<Block>, free': seq<Block>, b: Block) {
    (forall x: nat :: b.Holds(x) ==> !Covers(free, x)) && Extended(free, free', b)
  }

  ghost predicate Extended(free: seq<Block>, free': seq<Block>, b: Block) {
    forall x: nat :: Covers(free', x) <==> b.Holds(x) || Covers(free, x)
  }

  lemma StoreInsideNewBlock(m: seq<Byte>, m1: seq<Byte>, m2: seq<Byte>, free: seq<Block>, free': seq<Block>, b: Block)
    requires SameOutside(m, m1, b) && SameBut(m1, m2, free') && Extended(free, free', b)
    ensures SameBut(m, m2, free')
  {
  }

  lemma LiveAfterReturn(free: seq<Block>, free': seq<Block>, live: seq<Block>, live': seq<Block>, b: Block,
                        m: seq<Byte>, m': seq<Byte>)
    requires LiveOk(m, free, live) && Disjoint(live')
    requires forall j :: 0 <= j < |live'| ==> live'[j] in live && live'[j].Apart(b)
    requires Returned(free, free', b) && SameBut(m, m', free')
    ensures LiveOk(m', free', live')
  {
    forall j | 0 <= j < |live'|
      ensures 0 < live'[j].addr && HEADER <= live'[j].size && live'[j].End() <= |m'|
      ensures Get64(m', live'[j].addr) == live'[j].size
      ensures forall x: nat :: live'[j].Holds(x) ==> !Covers(free', x)
    {
      var i :| 0 <= i < |live| && live[i] == live'[j];
      assert forall x: nat :: live[i].Holds(x) ==> !Covers(free', x);
      assert forall x: nat :: live[i].addr <= x < live[i].addr + 8 ==> live[i].Holds(x);
      Get64Frame(m, m', live[i].addr);
    }
  }

  /** Adding a region cannot overflow the 64-bit capacity: everything lies in one address space. */
  lemma CapacityFits(free: seq<Block>, live: seq<Block>, b: Block, limit: nat)
    requires Canonical(free) && Placed(free, limit) && Placed(live, limit) && Disjoint(live) && Separate(free, live)
    requires 0 < b.addr && HEADER <= b.size && b.End() <= limit
    requires forall i :: 0 <= i < |free| ==> free[i].Apart(b)
    requires forall i :: 0 <= i < |live| ==> live[i].Apart(b)
    ensures Total(free) + Total(live) + b.size < limit
  {
    forall j | 0 <= j < |live| ensures forall i :: 0 <= i < |free| ==> free[i].Apart(live[j]) {
      ApartFromFree(free, live[j], limit);
    }
    var all := free + (live + [b]);
    assert Disjoint(live + [b]);
    assert Disjoint(all);
    TotalBounded(all, limit);
    TotalConcat(free, live + [b]);
    TotalConcat(live, [b]);
  }

  /** What the allocator leaves alone: every byte, header or payload, of every live block. */
  lemma LiveBytesKept(free: seq<Block>, live: seq<Block>, m: seq<Byte>, m': seq<Byte>)
    requires Separate(free, live) && Placed(live, |m|) && SameBut(m, m', free)
    ensures forall j, x: nat :: 0 <= j < |live| && live[j].Holds(x) ==> m'[x] == m[x]
  {
  }

  /** Freeing the block just allocated gives back exactly the list there was. */
  lemma AllocFreeRestores(free: seq<Block>, mid: seq<Block>, after: seq<Block>, b: Block, limit: nat)
    requires Canonical(free) && Canonical(after) && Placed(free, limit) && Placed(after, limit)
    requires Carved(free, mid, b) && Returned(mid, after, b)
    ensures after == free
  {
    CanonicalIsUnique(after, free, limit);
  }

  function Last(bs: seq<Block>): Block
    requires bs != []
  {
    bs[|bs| - 1]
  }

  // ---------- the allocator ----------

  datatype Outcome = Stopped | NoMemory | Done(ptr: nat)

  class Heap {
    var mem: seq<Byte>
    var head: nat
    var capacity: nat

    /** The blocks on the free list, in list order, and the blocks handed out. */
    ghost var free: seq<Block>
    ghost var live: seq<Block>

    /** The allocator's own state. */
    ghost predicate ListOk()
      reads this
    {
      |mem| <= U64 && Linked(mem, head, free) && Canonical(free)
    }

    ghost predicate Valid()
      reads this
    {
      && ListOk()
      && LiveOk(mem, free, live)
      && capacity == Total(free) + Total(live)
    }

    method Store(a: nat, v: nat)
      requires a + 8 <= |mem| && v < U64
      modifies this`mem
      ensures Stored(old(mem), mem, a, v)
    {
      Pow256Is64();
      var w := LittleBytes(v, 8);
      mem := mem[..a] + w + mem[a+8..];
      assert mem[a..a+8] == w;
    }

    /** The size word is written whatever the size, and the pool's own next word never: the list is right
        exactly when a header fits the pool and that word was zero. */
    constructor (m: seq<Byte>, pool: nat, size: nat)
      requires |m| <= U64 && 0 < pool && pool + size <= |m| && pool + HEADER <= |m| && size < U64
      ensures free == [Block(pool, size)] && live == [] && capacity == size && head == pool
      ensures Stored(m, mem, pool, size)
      ensures Valid() <==> HEADER <= size && Get64(m, pool + 8) == 0
    {
      mem := m;
      head := pool;
      capacity := size;
      free := [Block(pool, size)];
      live := [];
      new;
      Store(pool, size);
      Get64Frame(m, mem, pool + 8);
      assert LinkAt(mem, free, 0) <==> Get64(m, pool + 8) == 0;
      assert Total([Block(pool, size)]) == size;
    }

    /** Merge `right` into `left` when they touch; bs is the whole list and left its block k. */
    method Coalesce(left: nat, right: nat, ghost bs: seq<Block>, ghost k: nat)
      requires |mem| <= U64 && Linked(mem, head, bs) && Sorted(bs)
      requires k < |bs| && left == bs[k].addr && right == Next(bs, k + 1)
      modifies this`mem
      ensures Linked(mem, head, Coalesced(bs, k))
      ensures SameOutside(old(mem), mem, bs[k])
    {
      assert LinkAt(mem, bs, k);
      if left == 0 || right == 0 {
        return;
      }
      assert LinkAt(mem, bs, k + 1);
      if left + Get64(mem, left) != right {
        return;
      }
      Store(left, Get64(mem, left) + Get64(mem, right));
      ghost var sized := mem;
      Store(left + 8, Get64(mem, right + 8));
      MergeStores(old(mem), sized, mem, bs[k], bs[k+1], Next(bs, k + 2));
      LinkedMerged(old(mem), mem, head, bs, k);
    }

    /** b is a well-formed block of its own, with its size word in place. */
    ghost predicate Insertable(b: Block)
      reads this
    {
      && 0 < b.addr && HEADER <= b.size && b.End() <= |mem| && Get64(mem, b.addr) == b.size
      && forall i :: 0 <= i < |free| ==> free[i].Apart(b)
    }

    method InsertFirst(entry: nat, ghost b: Block)
      requires ListOk() && b.addr == entry && Insertable(b) && Position(free, entry, 0)
      modifies this`mem, this`head, this`free
      ensures ListOk() && free == Inserted(old(free), 0, b) && SameOutside(old(mem), mem, b)
    {
      ghost var bs := free;
      Store(entry + 8, head);
      Get64Frame(old(mem), mem, entry);
      head := entry;
      SortedWith(bs, 0, b);
      LinkedWith(old(mem), mem, mem, old(head), bs, 0, b);
      Coalesce(entry, Get64(mem, entry + 8), With(bs, 0, b), 0);
      free := Inserted(bs, 0, b);
      InsertedCanonical(bs, 0, b);
    }

    method LinkAfter(curr: nat, entry: nat, ghost b: Block, ghost j: nat)
      requires ListOk() && b.addr == entry && Insertable(b)
      requires j < |free| && curr == free[j].addr && Position(free, entry, j + 1)
      modifies this`mem
      ensures Linked(mem, head, With(free, j + 1, b)) && Sorted(With(free, j + 1, b))
      ensures |mem| == |old(mem)|
      ensures forall x :: 0 <= x < |mem| && !b.Holds(x) && !free[j].Holds(x) ==> mem[x] == old(mem)[x]
    {
      assert LinkAt(mem, free, j);
      Store(entry + 8, Get64(mem, curr + 8));
      ghost var m1 := mem;
      Get64Frame(old(mem), m1, entry);
      HeaderFrame(old(mem), m1, b, free[j], Next(free, j + 1));
      Store(curr + 8, entry);
      Get64Frame(m1, mem, curr);
      SortedWith(free, j + 1, b);
      LinkedWith(old(mem), m1, mem, head, free, j + 1, b);
    }

    method InsertAfter(curr: nat, entry: nat, ghost b: Block, ghost j: nat)
      requires ListOk() && b.addr == entry && Insertable(b)
      requires j < |free| && curr == free[j].addr && Position(free, entry, j + 1)
      modifies this`mem, this`free
      ensures ListOk() && free == Inserted(old(free), j + 1, b)
      ensures |mem| == |old(mem)|
      ensures forall x :: 0 <= x < |mem| && !b.Holds(x) && !old(free)[j].Holds(x) ==> mem[x] == old(mem)[x]
    {
      LinkAfter(curr, entry, b, j);
      ghost var r := With(free, j + 1, b);
      assert LinkAt(mem, r, j + 1);
      Coalesce(entry, Get64(mem, entry + 8), r, j + 1);
      if Coalesced(r, j + 1) != r {
        SortedMerged(r, j + 1);
      }
      Coalesce(curr, entry, Coalesced(r, j + 1), j);
      InsertedCanonical(free, j + 1, b);
      free := Inserted(free, j + 1, b);
    }

    /** The last block below `entry`; the walk starts at a head that is below it. */
    method FindBefore(entry: nat) returns (curr: nat, ghost j: nat)
      requires ListOk() && head != 0 && head < entry && forall i :: 0 <= i < |free| ==> free[i].addr != entry
      ensures j < |free| && curr == free[j].addr && Position(free, entry, j + 1)
    {
      curr, j := head, 0;
      assert LinkAt(mem, free, 0);
      while Get64(mem, curr + 8) != 0 && Get64(mem, curr + 8) < entry
        invariant j < |free| && curr == free[j].addr && free[j].addr < entry
        invariant Get64(mem, curr + 8) == Next(free, j + 1)
        decreases |free| - j
      {
        curr := Get64(mem, curr + 8);
        j := j + 1;
        assert LinkAt(mem, free, j);
      }
    }

    /** Insert a block in address order and merge it with its neighbours. */
    method Insert(entry: nat, ghost b: Block)
      requires ListOk() && b.addr == entry && Insertable(b)
      modifies this`mem, this`head, this`free
      ensures ListOk() && |mem| == |old(mem)|
      ensures Extended(old(free), free, b) && SameBut(old(mem), mem, free)
      ensures Total(free) == Total(old(free)) + b.size
    {
      ghost var bs := free;
      if head == 0 || entry < head {
        InsertFirst(entry, b);
        InsertedEffect(bs, 0, b);
        return;
      }
      var curr; ghost var j;
      curr, j := FindBefore(entry);
      InsertAfter(curr, entry, b, j);
      InsertedEffect(bs, j + 1, b);
      assert forall x: nat :: bs[j].Holds(x) ==> Covers(bs, x);
    }

    ghost predicate At(prev: nat, curr: nat, i: nat)
      reads this
    {
      i < |free| && curr == free[i].addr && prev == if i == 0 then 0 else free[i-1].addr
    }

    ghost predicate OnlyAround(m: seq<Byte>, bs: seq<Block>, i: nat)
      requires i < |bs|
      reads this
    {
      && |mem| == |m|
      && forall x :: 0 <= x < |m| && !bs[i].Holds(x) && !(0 < i && bs[i-1].Holds(x)) ==> mem[x] == m[x]
    }

    /** The stores of a split, in order: the new header, the predecessor's link, the old size. */
    method SplitStores(prev: nat, curr: nat, actual: nat, remain: nat, ghost i: nat)
      returns (ghost m0: seq<Byte>, ghost m1: seq<Byte>, ghost m2: seq<Byte>)
      requires |mem| <= U64 && Placed(free, |mem|) && At(prev, curr, i)
      requires actual + remain == free[i].size && HEADER <= remain
      modifies this`mem, this`head
      ensures Stored(old(mem), m0, curr + actual, remain) && Stored(m0, m1, curr + actual + 8, Get64(m0, curr + 8))
      ensures if i == 0 then m2 == m1 else Stored(m1, m2, prev + 8, curr + actual)
      ensures Stored(m2, mem, curr, actual)
      ensures head == if i == 0 then curr + actual else old(head)
    {
      var entry := curr + actual;
      Store(entry, remain);
      m0 := mem;
      Store(entry + 8, Get64(mem, curr + 8));
      m1 := mem;
      if prev != 0 {
        Store(prev + 8, entry);
      } else {
        head := entry;
      }
      m2 := mem;
      Store(curr, actual);
    }

    /** Carve `actual` bytes off the front of block i, leaving the rest on the list. */
    method SplitBlock(prev: nat, curr: nat, actual: nat, remain: nat, ghost i: nat)
      requires ListOk() && At(prev, curr, i) && actual + remain == free[i].size && HEADER <= remain
      modifies this`mem, this`head, this`free
      ensures OnlyAround(old(mem), old(free), i) && Get64(mem, curr) == actual
      ensures head == if i == 0 then curr + actual else old(head)
      ensures HEADER <= actual ==>
                ListOk() && free == old(free)[i := Block(curr + actual, remain)]
    {
      ghost var bs := free;
      ghost var m0, m1, m2 := SplitStores(prev, curr, actual, remain, i);
      if HEADER <= actual {
        free := bs[i := Block(curr + actual, remain)];
        SplitLinks(old(mem), m0, m1, m2, mem, old(head), bs, i, free[i]);
      }
    }

    /** Hand out block i whole. */
    method TakeBlock(prev: nat, curr: nat, ghost i: nat)
      requires ListOk() && At(prev, curr, i)
      modifies this`mem, this`head, this`free
      ensures OnlyAround(old(mem), old(free), i)
      ensures ListOk() && free == Without(old(free), i) && Get64(mem, curr) == old(free)[i].size
    {
      ghost var bs := free;
      assert LinkAt(mem, bs, i);
      if prev != 0 {
        Store(prev + 8, Get64(mem, curr + 8));
        assert LinkAt(old(mem), bs, i - 1);
        Get64Frame(old(mem), mem, prev);
        Get64Frame(old(mem), mem, curr);
      } else {
        head := Get64(mem, curr + 8);
      }
      LinkedWithout(old(mem), mem, old(head), bs, i);
      free := Without(bs, i);
    }

    /** The walk of freelist_alloc: the first block of at least n bytes, if any. */
    method FindFit(n: nat) returns (prev: nat, curr: nat, ghost i: nat)
      requires ListOk()
      ensures i <= |free| && forall k :: 0 <= k < i ==> free[k].size < n
      ensures if i == |free| then curr == 0 else At(prev, curr, i) && n <= free[i].size
    {
      prev, curr, i := 0, head, 0;
      while curr != 0
        invariant i <= |free| && curr == Next(free, i)
        invariant prev == if i == 0 then 0 else free[i-1].addr
        invariant forall k :: 0 <= k < i ==> free[k].size < n
        decreases |free| - i
      {
        assert LinkAt(mem, free, i);
        if Get64(mem, curr) >= n {
          break;
        }
        prev := curr;
        curr := Get64(mem, curr + 8);
        i := i + 1;
      }
    }

    /** Take block i off the list, splitting it when another block can fit behind the allocation. */
    method Detach(prev: nat, curr: nat, actual: nat, ghost i: nat) returns (ghost b: Block)
      requires ListOk() && At(prev, curr, i) && actual <= free[i].size
      modifies this`mem, this`head, this`free
      ensures OnlyAround(old(mem), old(free), i)
      ensures HEADER <= actual || old(free)[i].size < actual + HEADER ==>
                && ListOk() && b.addr == curr && actual <= b.size <= old(free)[i].size && b.size < actual + HEADER
                && Get64(mem, curr) == b.size && Carved(old(free), free, b)
                && Total(free) + b.size == Total(old(free)) && SameBut(old(mem), mem, old(free))
      ensures old(free)[i].size < actual + HEADER ==> b == old(free)[i] && free == Without(old(free), i)
      ensures actual < HEADER && actual + HEADER <= old(free)[i].size ==>
                Get64(mem, curr) == actual && head == if i == 0 then curr + actual else old(head)
    {
      ghost var bs := free;
      assert LinkAt(mem, free, i);
      b := free[i];
      var remain := Get64(mem, curr) - actual;
      if HEADER <= remain {
        SplitBlock(prev, curr, actual, remain, i);
        if HEADER <= actual {
          b := Block(curr, actual);
          ShrunkEffect(bs, i, free[i]);
        }
      } else {
        TakeBlock(prev, curr, i);
        TakenEffect(bs, i);
      }
      forall x: nat | bs[i].Holds(x) || (0 < i && bs[i-1].Holds(x)) ensures Covers(bs, x) {}
    }

    /** Record a block just carved off the list as live. */
    ghost method HandOut(m: seq<Byte>, bs: seq<Block>, b: Block)
      requires ListOk() && LiveOk(m, bs, live)
      requires Carved(bs, free, b) && SameBut(m, mem, bs)
      requires 0 < b.addr && HEADER <= b.size && b.End() <= |mem| && Get64(mem, b.addr) == b.size
      requires capacity == Total(free) + b.size + Total(live)
      modifies this`live
      ensures live == old(live) + [b] && Valid()
    {
      LiveAfterCarve(bs, free, live, b, m, mem);
      TotalConcat(live, [b]);
      live := live + [b];
    }

    /** What a cut of fewer bytes than a header leaves: a head block too short to split is handed out whole;
        a longer one stays on the list, which now starts inside the block that was handed out. */
    ghost predicate Overgranted(bs: seq<Block>, was: seq<Block>, m: seq<Byte>, actual: nat)
      requires bs != [] && bs[0].addr + 8 <= |mem|
      reads this
    {
      if bs[0].size < actual + HEADER
      then Valid() && free == Without(bs, 0) && live == was + [bs[0]] && SameBut(m, mem, bs)
      else head == bs[0].addr + actual && Get64(mem, bs[0].addr) == actual && SameOutside(m, mem, bs[0])
    }

    /** The search and the cut for `actual` bytes, header included; zero when nothing fits. */
    method AllocBytes(actual: nat) returns (curr: nat)
      requires Valid() && free != []
      modifies this
      ensures capacity == old(capacity) && |mem| == |old(mem)|
      ensures actual < HEADER ==> curr == old(head) && Overgranted(old(free), old(live), old(mem), actual)
      ensures HEADER <= actual ==> Valid()
      ensures HEADER <= actual && curr == 0 ==>
                !SomeRun(old(free), actual) && mem == old(mem) && free == old(free) && live == old(live)
      ensures HEADER <= actual && curr != 0 ==>
                Granted(old(free), old(live), old(mem), free, live, mem, actual - HEADER, curr + HEADER)
    {
      hide Carved;
      hide SameBut;
      hide LiveOk;
      hide Canonical;
      hide BestFit;
      hide LinkAt;
      var prev; ghost var i;
      prev, curr, i := FindFit(actual);
      if curr == 0 {
        if HEADER <= actual {
          NoRunWithoutFit(free, actual, |mem|);
        }
        return;
      }
      ghost var b := Detach(prev, curr, actual, i);
      if HEADER <= actual {
        FitIsBest(old(free), i, actual - HEADER, b);
        HandOut(old(mem), old(free), b);
      } else if old(free)[0].size < actual + HEADER {
        HandOut(old(mem), old(free), b);
      }
    }

    /** freelist_alloc.  size + HEADER is a 64-bit sum; the result is right exactly when it does not wrap, and
        when it does the head block is handed out whatever its size. */
    method Alloc(size: nat) returns (r: Outcome)
      requires Valid() && size < U64
      modifies this
      ensures capacity == old(capacity) && |mem| == |old(mem)|
      ensures r.Stopped? <==> old(free) == [] || size == 0
      ensures size + HEADER < U64 ==> Valid() && (r.NoMemory? ==> !SomeRun(old(free), size + HEADER))
      ensures !r.Done? ==> mem == old(mem) && free == old(free) && live == old(live)
      ensures r.Done? && size + HEADER < U64 ==>
                Granted(old(free), old(live), old(mem), free, live, mem, size, r.ptr)
      ensures !r.Stopped? && U64 <= size + HEADER ==>
                && r == Done(old(free)[0].addr + HEADER) && !SomeRun(old(free), size + HEADER)
                && old(free)[0].addr + 8 <= |mem| && Overgranted(old(free), old(live), old(mem), size + HEADER - U64)
    {
      hide Granted;
      hide Overgranted;
      hide LiveOk;
      hide Canonical;
      if head == 0 || size == 0 {
        return Stopped;
      }
      NoRunWithoutFit(free, size + HEADER, |mem|);
      var actual := (size + HEADER) % U64;
      assert if size + HEADER < U64 then actual == size + HEADER else actual < HEADER;
      var curr := AllocBytes(actual);
      if curr == 0 {
        return NoMemory;
      }
      return Done(curr + HEADER);
    }

    /** freelist_free of live block k; it stops when the free list is empty. */
    method Free(ptr: nat, ghost k: nat) returns (stopped: bool)
      requires Valid() && (ptr == 0 || (k < |live| && ptr == live[k].addr + HEADER))
      modifies this
      ensures stopped <==> old(free) == [] || ptr == 0
      ensures stopped ==> mem == old(mem) && free == old(free) && live == old(live) && head == old(head)
      ensures capacity == old(capacity) && Valid()
      ensures !stopped ==>
                live == Without(old(live), k) && Returned(old(free), free, old(live)[k]) && SameBut(old(mem), mem, free)
    {
      if head == 0 || ptr == 0 {
        return true;
      }
      var entry := ptr - HEADER;
      ghost var b := live[k];
      ApartFromFree(free, b, |mem|);
      Insert(entry, b);
      WithoutTotal(live, k);
      ghost var l := Without(live, k);
      LiveAfterReturn(old(free), free, live, l, b, old(mem), mem) by {
        forall j | 0 <= j < |l| ensures l[j] in live && l[j].Apart(b) {
          assert l[j] == live[if j < k then j else j + 1];
        }
      }
      live := l;
      return false;
    }

    /** freelist_add_region: a fresh region, clear of everything the heap already has. */
    method AddRegion(pool: nat, size: nat) returns (stopped: bool)
      requires Valid() && (pool == 0 || size == 0 || HEADER <= size) && pool + size <= |mem|
      requires forall x: nat :: Block(pool, size).Holds(x) ==> !Covers(free, x) && !Covers(live, x)
      modifies this
      ensures stopped <==> pool == 0 || size == 0
      ensures stopped ==> mem == old(mem) && free == old(free) && live == old(live) && capacity == old(capacity)
      ensures Valid()
      ensures !stopped ==> live == old(live) && capacity == old(capacity) + size
      ensures !stopped ==> Returned(old(free), free, Block(pool, size)) && SameBut(old(mem), mem, free)
    {
      if pool == 0 || size == 0 {
        return true;
      }
      ghost var b := Block(pool, size);
      ApartFromFree(free, b, |mem|);
      ApartFromFree(live, b, |mem|);
      CapacityFits(free, live, b, |mem|);
      Store(pool, size);
      LinkedFrame(old(mem), mem, head, free, b);
      ghost var m1 := mem;
      capacity := (capacity + size) % U64;
      assert capacity == old(capacity) + size;
      Insert(pool, b);
      assert capacity == Total(free) + Total(live);
      StoreInsideNewBlock(old(mem), m1, mem, old(free), free, b);
      LiveAfterReturn(old(free), free, live, live, b, old(mem), mem);
      return false;
    }

    /** A caller writing a byte of its own payload. */
    method WritePayload(addr: nat, v: Byte, ghost k: nat)
      requires Valid() && k < |live| && live[k].addr + HEADER <= addr < live[k].End()
      modifies this`mem
      ensures Valid() && mem == old(mem)[addr := v]
    {
      mem := mem[addr := v];
      ghost var cell := Block(addr, 1);
      ApartFromFree(free, cell, |mem|) by {
        assert live[k].Holds(addr);
      }
      LinkedFrame(old(mem), mem, head, free, cell);
      forall i | 0 <= i < |live| ensures Get64(mem, live[i].addr) == live[i].size {
        assert i != k ==> if i < k then live[i].Apart(live[k]) else live[k].Apart(live[i]);
        Get64Frame(old(mem), mem, live[i].addr);
      }
    }
  }
}
