/** libfdt's full check of a blob, and the strings and reserve entries it looks at. Version 17 blobs. */
module FdtCheck {
  import opened Common
  import opened FdtTokens
  import opened FdtReader

  // ---------- strings ----------

  /** The name that starts at i: the bytes before the next terminator. */
  function NameAt(strs: seq<Byte>, i: int): Option<seq<Byte>> {
    if 0 <= i < |strs| && NulFrom(strs, i) < |strs| then Some(strs[i..NulFrom(strs, i)]) else None
  }

  /** Finished, the strings block starts at its offset; while being written it ends where the buffer ends. */
  ghost predicate StringsOk(b: Blob) {
    && b.h.totalsize <= INT_MAX && b.h.totalsize <= |b.mem|
    && (b.h.magic == FDT_MAGIC || b.h.magic == SW_MAGIC)
    && (b.h.magic == FDT_MAGIC ==> b.h.offStrings + b.h.sizeStrings <= b.h.totalsize)
    && (b.h.magic == SW_MAGIC ==> b.h.offStrings == b.h.totalsize && b.h.sizeStrings <= b.h.totalsize)
  }

  ghost function StringsBase(b: Blob): int {
    if b.h.magic == FDT_MAGIC then b.h.offStrings else b.h.totalsize - b.h.sizeStrings
  }

  ghost function StringsOf(b: Blob): (s: seq<Byte>)
    requires StringsOk(b)
    ensures |s| == b.h.sizeStrings
  {
    b.mem[StringsBase(b)..StringsBase(b) + b.h.sizeStrings]
  }

  /** A 32-bit word as a signed int. */
  function Signed(v: nat): int
    requires v < U32
  {
    if v <= INT_MAX then v else v - U32
  }

  /** Where in the strings block an offset points: from its start, or while being written back from its end. */
  ghost function StringIndex(b: Blob, stroffset: int): int {
    if b.h.magic == FDT_MAGIC then stroffset else b.h.sizeStrings + stroffset
  }

  /** The name an offset stands for. */
  ghost function NameOf(b: Blob, stroffset: int): Option<seq<Byte>>
    requires StringsOk(b)
  {
    if RoProbe(b.h) < 0 then None else NameAt(StringsOf(b), StringIndex(b, stroffset))
  }

  /** memchr for the terminator in the len bytes at i. */
  method FindNul(m: seq<Byte>, i: nat, len: nat) returns (n: nat)
    requires i + len <= |m|
    ensures i <= n <= i + len && NoNul(m, i, n) && (n < i + len ==> m[n] == 0)
  {
    n := i;
    while n < i + len && m[n] != 0
      invariant i <= n <= i + len && NoNul(m, i, n)
    {
      n := n + 1;
    }
  }

  /** Before version 17 the size of the strings block does not count: a name may run to the blob's end. */
  ghost function OldNameOf(b: Blob, stroffset: int): Option<seq<Byte>>
    requires b.h.totalsize <= |b.mem|
  {
    if RoProbe(b.h) < 0 || stroffset < 0 then None else NameAt(b.mem[..b.h.totalsize], b.h.offStrings + stroffset)
  }

  /** The same for finished blobs before version 17. */
  method OldGetString(b: Blob, stroffset: int) returns (name: Option<seq<Byte>>)
    requires StringsOk(b) && -0x8000_0000 <= stroffset <= INT_MAX && b.h.magic == FDT_MAGIC
    ensures name == OldNameOf(b, stroffset)
  {
    hide NulFrom;
    var totalsize := RoProbe(b.h);
    if totalsize < 0 {
      return None;
    }
    var absoffset := (stroffset + b.h.offStrings) % U32;
    if absoffset >= totalsize || stroffset < 0 {
      return None;
    }
    var n := FindNul(b.mem, absoffset, totalsize - absoffset);
    ghost var s := b.mem[..totalsize];
    ghost var e := NulFrom(s, absoffset);
    if n == totalsize {
      if e < |s| {
        assert false;
      }
      return None;
    }
    FirstNul(s, absoffset, n);
    assert s[absoffset..n] == b.mem[absoffset..n];
    return Some(b.mem[absoffset..n]);
  }

  /** fdt_get_string. */
  method GetString(b: Blob, stroffset: int) returns (name: Option<seq<Byte>>)
    requires StringsOk(b) && -0x8000_0000 <= stroffset <= INT_MAX
    ensures 17 <= b.h.version || b.h.magic == SW_MAGIC ==> name == NameOf(b, stroffset)
    ensures b.h.version < 17 && b.h.magic == FDT_MAGIC ==> name == OldNameOf(b, stroffset)
  {
    if b.h.version < 17 && b.h.magic == FDT_MAGIC {
      name := OldGetString(b, stroffset);
    } else {
      name := SizedGetString(b, stroffset);
    }
  }

  /** And where the strings block has a size, finished or not. */
  method SizedGetString(b: Blob, stroffset: int) returns (name: Option<seq<Byte>>)
    requires StringsOk(b) && -0x8000_0000 <= stroffset <= INT_MAX
    ensures name == NameOf(b, stroffset)
  {
    hide NulFrom;
    var found, at, len := StringRange(b, stroffset);
    if !found {
      return None;
    }
    var n := FindNul(b.mem, at, len);
    StringFound(b, stroffset, at, len, n);
    if n == at + len {
      return None;
    }
    return Some(b.mem[at..n]);
  }

  lemma Wraps(v: int)
    ensures 0 - U32 < v < U32 ==> v % U32 == if v < 0 then v + U32 else v
  {
  }

  /** The bytes to search: from the offset to the end of the strings block, if it points into the block. */
  method StringRange(b: Blob, stroffset: int) returns (found: bool, at: nat, len: nat)
    requires StringsOk(b) && -0x8000_0000 <= stroffset <= INT_MAX
    ensures found <==> 0 <= RoProbe(b.h) && 0 <= StringIndex(b, stroffset) < b.h.sizeStrings
    ensures found ==> at == StringsBase(b) + StringIndex(b, stroffset) && at + len == StringsBase(b) + b.h.sizeStrings
  {
    var totalsize := RoProbe(b.h);
    if totalsize < 0 {
      return false, 0, 0;
    }
    Wraps(stroffset + b.h.offStrings);
    Wraps(-stroffset);
    at := (stroffset + b.h.offStrings) % U32;
    if at >= totalsize {
      return false, at, 0;
    }
    len := totalsize - at;
    if b.h.magic == FDT_MAGIC {
      if stroffset < 0 || stroffset >= b.h.sizeStrings {
        return false, at, len;
      }
      if b.h.sizeStrings - stroffset < len {
        len := b.h.sizeStrings - stroffset;
      }
    } else {
      var swStroffset: nat := (-stroffset) % U32;
      if stroffset >= 0 || swStroffset > b.h.sizeStrings {
        return false, at, len;
      }
      if swStroffset < len {
        len := swStroffset;
      }
    }
    return true, at, len;
  }

  /** A search of the buffer is a search of the strings block. */
  lemma StringFound(b: Blob, stroffset: int, at: nat, len: nat, n: nat)
    requires StringsOk(b) && 0 <= RoProbe(b.h) && 0 <= StringIndex(b, stroffset) < b.h.sizeStrings
    requires at == StringsBase(b) + StringIndex(b, stroffset) && at + len == StringsBase(b) + b.h.sizeStrings
    requires at <= n <= at + len && NoNul(b.mem, at, n) && (n < at + len ==> b.mem[n] == 0)
    ensures NameOf(b, stroffset) == if n == at + len then None else Some(b.mem[at..n])
  {
    var s, i, base := StringsOf(b), StringIndex(b, stroffset), StringsBase(b);
    assert forall j :: 0 <= j < |s| ==> s[j] == b.mem[base + j];
    var e := NulFrom(s, i);
    hide NulFrom;
    if n < at + len {
      FirstNul(s, i, n - base);
      assert s[i..n - base] == b.mem[at..n];
    } else if e < |s| {
      assert false;
    }
  }

  // ---------- the reserve map ----------

  function LongAt(m: seq<Byte>, i: nat): nat
    requires i + 8 <= |m|
  {
    Word(m, i) * U32 + Word(m, i + 4)
  }

  /** Entry n lies in the blob. */
  ghost predicate HasRsv(b: Blob, n: nat) { b.h.offRsvmap + 16 * n + 16 <= b.h.totalsize <= |b.mem| }

  /** Entry n ends the map: its size is zero. */
  ghost predicate EndsRsv(b: Blob, n: nat) {
    HasRsv(b, n) && LongAt(b.mem, b.h.offRsvmap + 16 * n + 8) == 0
  }

  /** fdt_num_mem_rsv: the first entry of size zero. */
  method NumMemRsv(b: Blob) returns (n: int)
    requires 16 <= b.h.totalsize <= INT_MAX && b.h.totalsize <= |b.mem| && b.h.offRsvmap <= b.h.totalsize
    ensures if 0 <= n then EndsRsv(b, n) && forall i: nat :: i < n ==> !EndsRsv(b, i)
            else n == TRUNCATED && forall i: nat :: !EndsRsv(b, i)
  {
    hide LongAt;
    n := 0;
    while true
      invariant 0 <= n && forall i: nat :: i < n ==> HasRsv(b, i) && !EndsRsv(b, i)
      decreases b.h.totalsize - 16 * n
    {
      var absoffset := (b.h.offRsvmap + 16 * n) % U32;
      if n > 0 { assert HasRsv(b, n - 1); }
      if absoffset < b.h.offRsvmap || absoffset > b.h.totalsize - 16 {
        assert !HasRsv(b, n);
        return TRUNCATED;
      }
      if LongAt(b.mem, absoffset + 8) == 0 {
        return;
      }
      n := n + 1;
    }
  }

  datatype Entry = Entry(address: nat, size: nat)

  /** Entry i of the reserve map. */
  ghost predicate EntryIs(b: Blob, i: nat, e: Entry) {
    var at := b.h.offRsvmap + 16 * i;
    at + 16 <= |b.mem| && LongAt(b.mem, at) == e.address && LongAt(b.mem, at + 8) == e.size
  }

  /** These entries stand at the start of the map, and before the structure block an entry of size zero follows. */
  ghost predicate RsvReads(b: Blob, rsv: seq<Entry>) {
    && b.h.offRsvmap + 16 * |rsv| + 16 <= b.h.offStruct
    && (forall i :: 0 <= i < |rsv| ==> EntryIs(b, i, rsv[i]))
    && EndsRsv(b, |rsv|)
  }

  /** The reserve map has its end before the structure block. */
  ghost predicate RsvEnded(b: Blob) {
    exists n: nat :: EndsRsv(b, n) && b.h.offRsvmap + 16 * n + 16 <= b.h.offStruct
  }

  /** Then it reads as some list of entries, and only then. */
  lemma EndedReads(b: Blob)
    ensures RsvEnded(b) <==> exists rsv :: RsvReads(b, rsv)
  {
    hide LongAt;
    if RsvEnded(b) {
      var n: nat :| EndsRsv(b, n) && b.h.offRsvmap + 16 * n + 16 <= b.h.offStruct;
      assert forall i :: 0 <= i < n ==> HasRsv(b, i);
      var rsv := seq(n, i requires 0 <= i < n => Entry(LongAt(b.mem, b.h.offRsvmap + 16 * i),
                                                       LongAt(b.mem, b.h.offRsvmap + 16 * i + 8)));
      forall i | 0 <= i < n ensures EntryIs(b, i, rsv[i]) {}
      assert RsvReads(b, rsv);
    }
  }

  /** How many entries come before the first of size zero. */
  function Live(rsv: seq<Entry>): (n: nat)
    ensures n <= |rsv| && (forall i :: 0 <= i < n ==> rsv[i].size != 0) && (n < |rsv| ==> rsv[n].size == 0)
  {
    if rsv == [] || rsv[0].size == 0 then 0 else 1 + Live(rsv[1..])
  }

  /** What fdt_num_mem_rsv finds: an entry of size zero ends the map for its readers, whatever follows. */
  lemma MapReads(b: Blob, rsv: seq<Entry>)
    requires RsvReads(b, rsv)
    ensures EndsRsv(b, Live(rsv)) && forall i: nat :: i < Live(rsv) ==> !EndsRsv(b, i)
    ensures Live(rsv) == |rsv| <==> forall i :: 0 <= i < |rsv| ==> rsv[i].size != 0
  {
    hide LongAt;
    forall i: nat | i <= Live(rsv) && i < |rsv| ensures EndsRsv(b, i) <==> rsv[i].size == 0 {
      assert EntryIs(b, i, rsv[i]);
    }
  }

  lemma LongKept(m: seq<Byte>, m': seq<Byte>, top: nat, i: nat)
    requires i + 8 <= top <= |m| && top <= |m'| && m[..top] == m'[..top]
    ensures LongAt(m, i) == LongAt(m', i)
  {
    hide Word;
    forall j | i <= j < i + 8 ensures m[j] == m'[j] {
      assert m[..top][j] == m'[..top][j];
    }
    WordLocal(m, i, m', i);
    WordLocal(m, i + 4, m', i + 4);
  }

  lemma EntryKept(b: Blob, b': Blob, top: nat, i: nat, e: Entry)
    requires EntryIs(b, i, e) && b'.h.offRsvmap == b.h.offRsvmap && b.h.offRsvmap + 16 * i + 16 <= top
    requires top <= |b.mem| && top <= |b'.mem| && b'.mem[..top] == b.mem[..top]
    ensures EntryIs(b', i, e)
  {
    LongKept(b.mem, b'.mem, top, b.h.offRsvmap + 16 * i);
    LongKept(b.mem, b'.mem, top, b.h.offRsvmap + 16 * i + 8);
  }

  /** The bytes before the structure block are all that the reserve map depends on. */
  lemma RsvKept(b: Blob, b': Blob, rsv: seq<Entry>)
    requires RsvReads(b, rsv) && b'.h.offRsvmap == b.h.offRsvmap && b'.h.offStruct == b.h.offStruct
    requires b'.h.offStruct <= b'.h.totalsize <= |b'.mem|
    requires b.h.offStruct <= |b.mem| && b'.mem[..b.h.offStruct] == b.mem[..b.h.offStruct]
    ensures RsvReads(b', rsv)
  {
    hide EntryIs;
    forall i | 0 <= i < |rsv| ensures EntryIs(b', i, rsv[i]) { EntryKept(b, b', b.h.offStruct, i, rsv[i]); }
    LongKept(b.mem, b'.mem, b.h.offStruct, b.h.offRsvmap + 16 * |rsv| + 8);
    hide LongAt;
  }

  // ---------- the header ----------

  predicate CheckOff(hdrsize: nat, totalsize: nat, off: nat) { hdrsize <= off <= totalsize }

  predicate CheckBlock(hdrsize: nat, totalsize: nat, base: nat, size: nat)
    requires base < U32 && size < U32 && totalsize < U32
    ensures CheckBlock(hdrsize, totalsize, base, size) <==> hdrsize <= base && base + size <= totalsize
  {
    CheckOff(hdrsize, totalsize, base) && (base + size) % U32 >= base
      && CheckOff(hdrsize, totalsize, (base + size) % U32)
  }

  ghost predicate Words(h: Header) {
    h.totalsize < U32 && h.offStruct < U32 && h.offStrings < U32 && h.offRsvmap < U32 && h.sizeStrings < U32
      && h.sizeStruct < U32
  }

  ghost predicate HeaderOk(h: Header) {
    && h.magic == FDT_MAGIC && h.lastComp <= 17 <= h.version
    && 40 <= h.totalsize <= INT_MAX
    && 40 <= h.offRsvmap <= h.totalsize
    && 40 <= h.offStruct && h.offStruct + h.sizeStruct <= h.totalsize
    && 40 <= h.offStrings && h.offStrings + h.sizeStrings <= h.totalsize
  }

  /** The header's own size by version. */
  function HeaderSize(version: nat): nat {
    if version <= 1 then 28 else if version <= 2 then 32 else if version <= 16 then 36 else 40
  }

  /** Seven words, and one more from versions 2, 3 and 17 on each. */
  lemma HeaderWords(version: nat)
    ensures HeaderSize(version) ==
            4 * (7 + (if 2 <= version then 1 else 0) + (if 3 <= version then 1 else 0) + if 17 <= version then 1 else 0)
  {
  }

  /** A header of any version: before version 17 there is no size of the structure block to check. */
  ghost predicate HeaderFits(h: Header) {
    var size := HeaderSize(h.version);
    && h.magic == FDT_MAGIC && 2 <= h.version && h.lastComp <= 17 && h.lastComp <= h.version
    && size <= h.totalsize <= INT_MAX
    && size <= h.offRsvmap <= h.totalsize
    && size <= h.offStruct && h.offStruct + (if h.version < 17 then 0 else h.sizeStruct) <= h.totalsize
    && size <= h.offStrings && h.offStrings + h.sizeStrings <= h.totalsize
  }

  /** fdt_check_header. */
  method CheckHeader(h: Header) returns (err: int)
    requires Words(h)
    ensures err == 0 <==> HeaderFits(h)
    ensures 17 <= h.version ==> (err == 0 <==> HeaderOk(h))
  {
    if h.magic != FDT_MAGIC { return BADMAGIC; }
    if h.version < 2 || h.lastComp > 17 || h.version < h.lastComp { return BADVERSION; }
    var size := HeaderSize(h.version);
    if h.totalsize < size || h.totalsize > INT_MAX { return TRUNCATED; }
    if !CheckOff(size, h.totalsize, h.offRsvmap) { return TRUNCATED; }
    if h.version < 17 {
      if !CheckOff(size, h.totalsize, h.offStruct) { return TRUNCATED; }
    } else {
      if !CheckBlock(size, h.totalsize, h.offStruct, h.sizeStruct) { return TRUNCATED; }
    }
    if !CheckBlock(size, h.totalsize, h.offStrings, h.sizeStrings) { return TRUNCATED; }
    return 0;
  }

  // ---------- the structure ----------

  /** The root has been closed. */
  ghost predicate Closed(ts: seq<Token>) {
    0 < |ts| && ts[|ts| - 1].EndNode? && Depth(ts, |ts|) == 0
  }

  /** Token t may follow the tokens ts. */
  ghost predicate MayFollow(b: Blob, ts: seq<Token>, t: Token)
    requires StringsOk(b)
  {
    && (Closed(ts) ==> t == End)
    && match t
       case Nop => true
       case End => Depth(ts, |ts|) == 0
       case BeginNode(name) => Depth(ts, |ts|) == 0 ==> name == [] && 0 <= RoProbe(b.h)
       case EndNode => 1 <= Depth(ts, |ts|)
       case Prop(nameoff, _) => nameoff < U32 && NameOf(b, Signed(nameoff)).Some?
  }

  /** Every token is in its place, and none ends the block. */
  ghost predicate Opening(b: Blob, ts: seq<Token>)
    requires StructOk(b) && StringsOk(b)
  {
    Laid(StructOf(b), ts) && forall i :: 0 <= i < |ts| ==> ts[i] != End && MayFollow(b, ts[..i], ts[i])
  }

  /** The whole structure block is in order. */
  ghost predicate Complete(b: Blob, ts: seq<Token>)
    requires StructOk(b) && StringsOk(b)
  {
    && 0 < |ts| && ts[|ts| - 1] == End && Laid(StructOf(b), ts)
    && Opening(b, ts[..|ts| - 1]) && MayFollow(b, ts[..|ts| - 1], End)
  }

  /** What a blob must be to be accepted. */
  ghost predicate Accepted(b: Blob) {
    && HeaderOk(b.h) && b.h.totalsize <= |b.mem|
    && (exists n: nat :: EndsRsv(b, n))
    && exists ts :: Complete(b, ts)
  }

  lemma {:induction false} DepthPrefix(ts: seq<Token>, us: seq<Token>, k: nat)
    requires k <= |ts| && k <= |us| && ts[..k] == us[..k]
    ensures Depth(ts, k) == Depth(us, k)
  {
    if k > 0 {
      assert ts[k - 1] == ts[..k][k - 1] == us[k - 1];
      assert ts[..k - 1] == ts[..k][..k - 1] == us[..k - 1];
      DepthPrefix(ts, us, k - 1);
    }
  }

  /** More nodes are never open than tokens have been read, and each token takes a word at least. */
  lemma {:induction false} DepthBound(ts: seq<Token>, k: nat)
    requires k <= |ts|
    ensures Depth(ts, k) <= k && 4 * k <= Offset(ts, k)
  {
    hide Size;
    if k > 0 { DepthBound(ts, k - 1); }
  }

  lemma Appended(ts: seq<Token>, t: Token)
    ensures Offset(ts + [t], |ts|) == Offset(ts, |ts|)
    ensures Offset(ts + [t], |ts| + 1) == Offset(ts, |ts|) + Size(t)
    ensures Depth(ts + [t], |ts| + 1)
            == Depth(ts, |ts|) + (match t case BeginNode(_) => 1 case EndNode => -1 case _ => 0)
  {
    assert (ts + [t])[..|ts|] == ts[..|ts|];
    OffsetPrefix(ts + [t], ts, |ts|);
    DepthPrefix(ts + [t], ts, |ts|);
  }

  lemma LaidMore(s: seq<Byte>, ts: seq<Token>, t: Token)
    requires Laid(s, ts) && Holds(s, Offset(ts, |ts|), t)
    ensures Laid(s, ts + [t])
  {
    hide Holds;
    hide Offset;
    Appended(ts, t);
    var us := ts + [t];
    forall k | 0 <= k < |us| ensures Holds(s, Offset(us, k), us[k]) {
      if k < |ts| {
        assert us[..k] == ts[..k];
        OffsetPrefix(us, ts, k);
        assert Holds(s, Offset(ts, k), ts[k]);
      }
    }
  }

  lemma OpeningMore(b: Blob, ts: seq<Token>, t: Token)
    requires StructOk(b) && StringsOk(b) && Opening(b, ts)
    requires Holds(StructOf(b), Offset(ts, |ts|), t) && MayFollow(b, ts, t)
    ensures if t == End then Complete(b, ts + [t]) else Opening(b, ts + [t])
  {
    hide Holds;
    hide MayFollow;
    hide Offset;
    LaidMore(StructOf(b), ts, t);
    hide Laid;
    assert (ts + [t])[..|ts|] == ts;
    forall i | 0 <= i < |ts| ensures (ts + [t])[..i] == ts[..i] {}
  }

  lemma PrefixLast(ts: seq<Token>, us: seq<Token>, n: nat)
    requires 0 < n <= |ts| && n <= |us| && ts[..n] == us[..n]
    ensures ts[n - 1] == us[n - 1]
  {
    assert ts[n - 1] == ts[..n][n - 1] == us[..n][n - 1];
  }

  /** A complete reading goes on from any partial one. */
  lemma Longer(b: Blob, ts: seq<Token>, us: seq<Token>)
    requires StructOk(b) && StringsOk(b) && Opening(b, ts) && Complete(b, us)
    ensures |ts| < |us| && us[..|ts|] == ts && Offset(us, |ts|) == Offset(ts, |ts|)
    ensures MayFollow(b, ts, us[|ts|])
  {
    hide MayFollow;
    hide Offset;
    var n := if |ts| < |us| then |ts| else |us|;
    OneReading(StructOf(b), ts, us, n);
    hide Laid;
    if 0 < n { PrefixLast(ts, us, n); }
    assert |ts| < |us|;
    assert ts[..|ts|] == ts;
    OffsetPrefix(us, ts, |ts|);
    var opening := us[..|us| - 1];
    if |ts| < |us| - 1 {
      assert opening[..|ts|] == us[..|ts|];
      assert MayFollow(b, opening[..|ts|], opening[|ts|]);
    }
  }

  /** A partial reading that cannot go on is part of no complete one. */
  lemma Rejected(b: Blob, ts: seq<Token>)
    requires StructOk(b) && StringsOk(b) && Opening(b, ts)
    requires var step := NextTag(StructOf(b), Offset(ts, |ts|));
             step.next < 0 || !MayFollow(b, ts, TokenAt(StructOf(b), Offset(ts, |ts|)))
    ensures forall us :: !Complete(b, us)
  {
    hide MayFollow;
    hide Offset;
    forall us ensures !Complete(b, us) {
      if Complete(b, us) {
        Longer(b, ts, us);
        assert Holds(StructOf(b), Offset(us, |ts|), us[|ts|]);
        OneToken(StructOf(b), Offset(us, |ts|), us[|ts|]);
        assert false;
      }
    }
  }

  /** The name test on the root: its first byte is the terminator. */
  lemma EmptyName(b: Blob, offset: nat)
    requires StructOk(b) && 0 <= NextTag(StructOf(b), offset).next && TokenAt(StructOf(b), offset).BeginNode?
    ensures offset + 4 < b.h.sizeStruct
    ensures ByteAt(b, offset + 4) == 0 <==> TokenAt(StructOf(b), offset).name == []
  {
    assert StructOf(b)[offset + 4] == ByteAt(b, offset + 4);
  }

  lemma NameOffset(b: Blob, offset: nat)
    requires StructOk(b) && 0 <= NextTag(StructOf(b), offset).next && TokenAt(StructOf(b), offset).Prop?
    ensures offset + 12 <= b.h.sizeStruct
    ensures WordAt(b, offset + 8) == TokenAt(StructOf(b), offset).nameoff
  {
    hide Word;
    WordInBlock(b, offset + 8);
  }

  /** One turn of the scan: whether the token at offset may follow, as the code tests it. */
  method TokenFits(b: Blob, offset: nat, tag: nat, depth: nat, expectEnd: bool, ghost ts: seq<Token>) returns (err: int)
    requires StructOk(b) && StringsOk(b) && 0 <= NextTag(StructOf(b), offset).next && offset <= INT_MAX
    requires tag == NextTag(StructOf(b), offset).tag && depth == Depth(ts, |ts|) && expectEnd == Closed(ts)
    requires offset % 4 == 0
    ensures err == 0 <==> MayFollow(b, ts, TokenAt(StructOf(b), offset)) && (tag == 1 ==> depth < INT_MAX)
  {
    hide Word;
    hide NameOf;
    hide WordAt;
    hide Depth;
    if expectEnd && tag != 9 {
      return BADSTRUCTURE;
    }
    if tag == 9 {
      return if depth != 0 then BADSTRUCTURE else 0;
    } else if tag == 1 {
      if depth + 1 > INT_MAX {
        return BADSTRUCTURE;
      }
      if depth == 0 {
        var probe := RoProbe(b.h);
        if probe < 0 {
          return probe;
        }
        var next := CheckNodeOffset(b, offset);
        EmptyName(b, offset);
        if next < 0 || ByteAt(b, offset + 4) != 0 {
          return BADSTRUCTURE;
        }
      }
    } else if tag == 2 {
      return if depth == 0 then BADSTRUCTURE else 0;
    } else if tag == 3 {
      NameOffset(b, offset);
      var name := GetString(b, Signed(WordAt(b, offset + 8)));
      return if name.None? then BADOFFSET else 0;
    }
    return 0;
  }

  /** fdt_check_full: a blob passes exactly if it is what an accepted blob must be. */
  method CheckFull(b: Blob, bufsize: nat) returns (err: int, ghost ts: seq<Token>)
    requires Words(b.h) && b.h.version >= 17 && bufsize == |b.mem|
    ensures err == 0 <==> Accepted(b)
    ensures err == 0 ==> Complete(b, ts)
  {
    ts := [];
    if bufsize < 28 || bufsize < 40 {
      return TRUNCATED, ts;
    }
    err := CheckHeader(b.h);
    if err != 0 {
      return;
    }
    if bufsize < b.h.totalsize {
      return TRUNCATED, ts;
    }
    var n := NumMemRsv(b);
    if n < 0 {
      return n, ts;
    }
    err, ts := ScanStruct(b);
  }

  /** Its loop over the tags. The depth cannot come near the limit of an int. */
  method ScanStruct(b: Blob) returns (err: int, ghost ts: seq<Token>)
    requires StructOk(b) && StringsOk(b) && 40 <= b.h.offStruct
    ensures err == 0 ==> Complete(b, ts)
    ensures err != 0 ==> forall us :: !Complete(b, us)
  {
    hide Laid;
    hide MayFollow;
    hide Complete;
    hide Opening;
    ts := [];
    var offset: nat, depth: nat, expectEnd := 0, 0, false;
    OpeningNone(b);
    while true
      invariant Opening(b, ts) && offset == Offset(ts, |ts|) && depth == Depth(ts, |ts|) && expectEnd == Closed(ts)
      invariant offset <= b.h.sizeStruct + 3
      decreases b.h.sizeStruct + 4 - offset
    {
      var tag, next := ReadTag(b, offset);
      MovesForward(StructOf(b), offset);
      if next < 0 {
        Rejected(b, ts);
        return next, ts;
      }
      DepthBound(ts, |ts|);
      err := TokenFits(b, offset, tag, depth, expectEnd, ts);
      ghost var t := TokenAt(StructOf(b), offset);
      if err != 0 {
        Rejected(b, ts);
        return;
      }
      TokenThere(StructOf(b), offset);
      OpeningMore(b, ts, t);
      Appended(ts, t);
      ReadsToken(StructOf(b), offset, t);
      ghost var before := ts;
      ts := ts + [t];
      if tag == 9 {
        return;
      }
      CloseStep(b, before, ts, t);
      if tag == 1 {
        depth := depth + 1;
      } else if tag == 2 {
        depth := depth - 1;
        if depth == 0 {
          expectEnd := true;
        }
      }
      offset := next;
    }
  }

  lemma OpeningNone(b: Blob)
    requires StructOk(b) && StringsOk(b)
    ensures Opening(b, []) && Offset([], 0) == 0 && Depth([], 0) == 0 && !Closed([])
  {
  }

  lemma CloseStep(b: Blob, ts: seq<Token>, us: seq<Token>, t: Token)
    requires StringsOk(b) && us == ts + [t] && MayFollow(b, ts, t) && t != End
    ensures !Closed(ts)
    ensures Closed(us) <==> t.EndNode? && Depth(ts, |ts|) == 1
    ensures t.EndNode? ==> 1 <= Depth(ts, |ts|)
  {
    hide NameOf;
    Appended(ts, t);
    hide Depth;
  }

  /** An accepted blob whose first tag opens a node reads as a tree with that node as its one root. */
  lemma AcceptedReads(b: Blob, ts: seq<Token>)
    requires HeaderOk(b.h) && b.h.totalsize <= |b.mem| && Complete(b, ts) && ts[0].BeginNode?
    ensures Reads(b, ts)
  {
    hide Laid;
    hide NameOf;
    var opening, n := ts[..|ts| - 1], |ts| - 1;
    assert 0 < |opening| && opening[..0] == [] && opening[0] == ts[0];
    assert MayFollow(b, opening[..0], opening[0]);
    DepthPrefix(ts, opening, n);
    forall i | 0 <= i < n ensures ts[i] != End { assert ts[i] == opening[i]; }
    forall i | 0 < i < n ensures 1 <= Depth(ts, i) { StaysOpen(b, ts, i); }
  }

  lemma {:induction false} StaysOpen(b: Blob, ts: seq<Token>, i: nat)
    requires StructOk(b) && StringsOk(b) && Complete(b, ts) && ts[0].BeginNode? && 0 < i < |ts| - 1
    ensures 1 <= Depth(ts, i)
    decreases i
  {
    hide Laid;
    hide NameOf;
    assert Depth(ts, 1) == 1;
    if i > 1 {
      StaysOpen(b, ts, i - 1);
      var opening := ts[..|ts| - 1];
      assert opening[..i] == ts[..i];
      DepthPrefix(ts[..i], ts, i);
      assert MayFollow(b, opening[..i], opening[i]);
    }
  }
}
