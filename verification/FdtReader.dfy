/** libfdt's readers over a blob: the tag scanner, node walks, subnodes and parents. Version 17 blobs. */
module FdtReader {
  import opened FdtTokens

  const BADSTATE: int := -7
  const BADMAGIC: int := -9
  const BADVERSION: int := -10
  const INTERNAL: int := -13

  const FDT_MAGIC: nat := 0xd00d_feed
  const SW_MAGIC: nat := 0x2ff2_0112

  /** The header words a blob starts with. */
  datatype Header = Header(magic: nat, totalsize: nat, offStruct: nat, offStrings: nat, offRsvmap: nat,
                           version: nat, lastComp: nat, sizeStrings: nat, sizeStruct: nat)

  /** A blob: its header and the bytes of its buffer. */
  datatype Blob = Blob(h: Header, mem: seq<Byte>)

  /** The structure block lies in the blob, and the blob in its buffer. */
  ghost predicate StructOk(b: Blob) {
    && b.h.version >= 17 && b.h.totalsize <= INT_MAX && b.h.totalsize <= |b.mem|
    && b.h.offStruct + b.h.sizeStruct <= b.h.totalsize
  }

  ghost function StructOf(b: Blob): (s: seq<Byte>)
    requires StructOk(b)
    ensures |s| == b.h.sizeStruct
  {
    b.mem[b.h.offStruct..b.h.offStruct + b.h.sizeStruct]
  }

  /** fdt_offset_ptr, in its 32-bit arithmetic: the len bytes at an offset lie in the structure block. */
  method OffsetPtr(b: Blob, offset: int, len: nat) returns (ok: bool)
    requires StructOk(b) && -0x8000_0000 <= offset <= INT_MAX && len < U32
    ensures ok <==> 0 <= offset && offset + len <= b.h.sizeStruct
  {
    var uoffset := offset % U32;
    var absoffset := (offset + b.h.offStruct) % U32;
    if offset < 0 {
      return false;
    }
    if absoffset < uoffset || (absoffset + len) % U32 < absoffset || (absoffset + len) % U32 > b.h.totalsize {
      return false;
    }
    if (uoffset + len) % U32 < uoffset || (offset + len) % U32 > b.h.sizeStruct {
      return false;
    }
    return true;
  }

  function ByteAt(b: Blob, offset: nat): Byte
    requires b.h.offStruct + offset < |b.mem|
  {
    b.mem[b.h.offStruct + offset]
  }

  function WordAt(b: Blob, offset: nat): (v: nat)
    requires b.h.offStruct + offset + 4 <= |b.mem|
    ensures v < U32
  {
    Word(b.mem, b.h.offStruct + offset)
  }

  lemma WordInBlock(b: Blob, offset: nat)
    requires StructOk(b) && offset + 4 <= b.h.sizeStruct
    ensures WordAt(b, offset) == Word(StructOf(b), offset)
  {
    var s := StructOf(b);
    assert forall j :: offset <= j < offset + 4 ==> s[j] == b.mem[j - offset + (b.h.offStruct + offset)];
    WordLocal(s, offset, b.mem, b.h.offStruct + offset);
  }

  /** The end of a node name: one past its terminator, or a failed fetch. */
  method SkipName(b: Blob, start: nat) returns (offset: nat, ok: bool)
    requires StructOk(b) && start <= b.h.sizeStruct
    ensures var e := NulFrom(StructOf(b), start);
            ok == (e < b.h.sizeStruct) && offset == e + 1
  {
    offset := start;
    ghost var s := StructOf(b);
    while true
      invariant start <= offset <= b.h.sizeStruct && NulFrom(s, offset) == NulFrom(s, start)
      decreases b.h.sizeStruct - offset
    {
      ok := OffsetPtr(b, offset, 1);
      offset := offset + 1;
      if !ok || ByteAt(b, offset - 1) == 0 {
        assert ok ==> s[offset - 1] == 0;
        return;
      }
      assert s[offset - 1] != 0;
    }
  }

  /** fdt_next_tag. */
  method ReadTag(b: Blob, startoffset: int) returns (tag: nat, next: int)
    requires StructOk(b) && -0x8000_0000 <= startoffset <= INT_MAX
    ensures Step(tag, next) == NextTag(StructOf(b), startoffset)
  {
    hide Word;
    hide WordAt;
    ghost var s := StructOf(b);
    tag, next := 9, TRUNCATED;
    var ok := OffsetPtr(b, startoffset, 4);
    if !ok {
      return;
    }
    WordInBlock(b, startoffset);
    var t := WordAt(b, startoffset);
    var offset: nat := startoffset + 4;
    next := BADSTRUCTURE;
    if t == 1 {
      offset, ok := SkipName(b, offset);
      if !ok {
        return;
      }
    } else if t == 3 {
      ok := OffsetPtr(b, offset, 4);
      if !ok {
        return;
      }
      WordInBlock(b, offset);
      var len := WordAt(b, offset);
      var sum := (len + offset) % U32;
      if INT_MAX <= sum || sum < offset {
        return;
      }
      offset := offset + 8 + len;
    } else if t != 9 && t != 2 && t != 4 {
      return;
    }
    ok := OffsetPtr(b, startoffset, offset - startoffset);
    if !ok {
      return;
    }
    return t, Aligned(offset);
  }

  // ---------- trees of tokens ----------

  /** How many nodes are open before token k. */
  function Depth(ts: seq<Token>, k: nat): int
    requires k <= |ts|
  {
    if k == 0 then 0
    else Depth(ts, k - 1) + (match ts[k - 1] case BeginNode(_) => 1 case EndNode => -1 case _ => 0)
  }

  /** One root that opens first and closes last, and the end tag after it. */
  ghost predicate Rooted(ts: seq<Token>) {
    && 3 <= |ts| && ts[0].BeginNode? && ts[|ts| - 1] == End
    && (forall i :: 0 <= i < |ts| - 1 ==> ts[i] != End)
    && (forall i :: 0 < i < |ts| - 1 ==> 1 <= Depth(ts, i))
    && Depth(ts, |ts| - 1) == 0
  }

  /** fdt_ro_probe_ on an aligned buffer: the total size, or an error. */
  function RoProbe(h: Header): int {
    if h.magic == FDT_MAGIC && (h.version < 2 || h.lastComp > 17) then BADVERSION
    else if h.magic == SW_MAGIC && h.sizeStruct == 0 then BADSTATE
    else if h.magic != FDT_MAGIC && h.magic != SW_MAGIC then BADMAGIC
    else if h.totalsize < INT_MAX then h.totalsize
    else TRUNCATED
  }

  /** The blob reads as this tree. */
  ghost predicate Reads(b: Blob, ts: seq<Token>) {
    0 <= RoProbe(b.h) && StructOk(b) && Laid(StructOf(b), ts) && Rooted(ts)
  }

  lemma ReadAt(b: Blob, ts: seq<Token>, i: nat)
    requires Reads(b, ts) && i < |ts|
    ensures NextTag(StructOf(b), Offset(ts, i)) == Step(TagOf(ts[i]), Offset(ts, i + 1))
    ensures Offset(ts, i) + 4 <= b.h.sizeStruct <= INT_MAX
  {
    hide Word;
    assert Holds(StructOf(b), Offset(ts, i), ts[i]);
    ReadsToken(StructOf(b), Offset(ts, i), ts[i]);
  }

  lemma {:induction false} OffsetOrder(ts: seq<Token>, i: nat, j: nat)
    requires i <= |ts| && j <= |ts|
    ensures Offset(ts, i) < Offset(ts, j) <==> i < j
    ensures Offset(ts, i) == Offset(ts, j) <==> i == j
  {
    if i < j { OffsetGrows(ts, i, j); }
    if j < i { OffsetGrows(ts, j, i); }
  }

  ghost predicate IsNode(ts: seq<Token>, k: nat) { k < |ts| && ts[k].BeginNode? }

  /** offset is where node k starts. */
  ghost predicate NodeAt(ts: seq<Token>, k: nat, offset: int) { IsNode(ts, k) && offset == Offset(ts, k) }

  ghost predicate TokenStart(ts: seq<Token>, k: nat, offset: int) { k < |ts| && offset == Offset(ts, k) }

  /** No node starts strictly between k and j. */
  ghost predicate NoNode(ts: seq<Token>, k: nat, j: nat) {
    forall i :: k < i < j ==> !IsNode(ts, i)
  }

  /** The depth does not fall below base from after k up to j. */
  ghost predicate Above(ts: seq<Token>, k: nat, j: nat, base: int) {
    forall i :: k < i <= j <= |ts| ==> base <= Depth(ts, i)
  }

  method CheckNodeOffset(b: Blob, offset: int) returns (next: int)
    requires StructOk(b) && -0x8000_0000 <= offset <= INT_MAX
    ensures var step := NextTag(StructOf(b), offset);
            next == if offset % 4 == 0 && step.tag == 1 then step.next else BADOFFSET
  {
    if offset < 0 || offset % 4 != 0 {
      return BADOFFSET;
    }
    var tag;
    tag, next := ReadTag(b, offset);
    if tag != 1 {
      return BADOFFSET;
    }
  }

  /** What a walk from node k with the depth counted from base comes to at j: the next node, the end of the node
  that holds the walk, or the end of the tree. */
  ghost predicate Arrives(ts: seq<Token>, k: nat, base: int, j: nat, r: int, depth: int) {
    && k < j < |ts| && NoNode(ts, k, j)
    && if r < 0 then
         r == NOTFOUND && j == |ts| - 1 && !IsNode(ts, j) && Above(ts, k, j, base)
       else if depth < 0 then
         r == Offset(ts, j) && depth == -1 && Depth(ts, j) == base - 1 && Above(ts, k, j - 1, base)
       else
         r == Offset(ts, j) && IsNode(ts, j) && depth == Depth(ts, j) + 1 - base && Above(ts, k, j, base)
  }

  /** On the way: no node met since k, and the depth not below base. */
  ghost predicate Walking(ts: seq<Token>, k: nat, base: int, j: nat, depth: int) {
    k < j < |ts| && NoNode(ts, k, j) && Above(ts, k, j, base) && 0 <= depth == Depth(ts, j) - base
  }

  lemma WalkStep(ts: seq<Token>, k: nat, base: int, j: nat, depth: int)
    requires Walking(ts, k, base, j, depth) && (ts[j] == End <==> j == |ts| - 1)
    ensures match ts[j]
            case BeginNode(_) => Arrives(ts, k, base, j, Offset(ts, j), depth + 1)
            case EndNode =>
              if depth == 0 then Arrives(ts, k, base, j + 1, Offset(ts, j + 1), -1)
                else Walking(ts, k, base, j + 1, depth - 1)
            case End => Arrives(ts, k, base, j, NOTFOUND, depth)
            case _ => Walking(ts, k, base, j + 1, depth)
  {
    hide Offset;
    assert j < |ts| - 1 ==>
        Depth(ts, j + 1) == Depth(ts, j) + (match ts[j] case BeginNode(_) => 1 case EndNode => -1 case _ => 0);
    hide Depth;
  }

  /** fdt_next_node, given where to count the depth. An offset that is no node's is refused. */
  method NextNode(b: Blob, offset0: int, depth0: int, ghost ts: seq<Token>, ghost k: nat)
    returns (offset: int, depth: int, ghost j: nat)
    requires TokenStart(ts, k, offset0) && (IsNode(ts, k) ==> 0 <= depth0) && Reads(b, ts)
    ensures if IsNode(ts, k) then Arrives(ts, k, Depth(ts, k + 1) - depth0, j, offset, depth)
            else offset == BADOFFSET && depth == depth0
  {
    hide Offset;
    hide Laid;
    hide Rooted;
    hide Arrives;
    LastIsEnd(ts);
    ghost var base := Depth(ts, k + 1) - depth0;
    ReadAt(b, ts, k);
    assert offset0 % 4 == 0;
    var next := CheckNodeOffset(b, offset0);
    depth := depth0;
    j := k + 1;
    if next < 0 {
      return next, depth, j;
    }
    assert Walking(ts, k, base, j, depth);
    hide Walking;
    hide Depth;
    while true
      invariant j < |ts| && 0 <= depth && next == Offset(ts, j) && Walking(ts, k, base, j, depth)
      decreases |ts| - j
    {
      ReadAt(b, ts, j);
      WalkStep(ts, k, base, j, depth);
      offset := next;
      var tag;
      tag, next := ReadTag(b, offset);
      if tag == 1 {
        depth := depth + 1;
        return;
      } else if tag == 2 {
        depth := depth - 1;
        if depth < 0 {
          j := j + 1;
          return next, depth, j;
        }
      } else if tag == 9 {
        return NOTFOUND, depth, j;
      }
      j := j + 1;
    }
  }

  /** The walk from before the root: the root is the first node, one level down. */
  method FirstNode(b: Blob, depth0: int, ghost ts: seq<Token>) returns (offset: int, depth: int)
    requires Reads(b, ts)
    ensures NodeAt(ts, 0, offset) && depth == depth0 + 1
  {
    ReadAt(b, ts, 0);
    hide Laid;
    var tag, next := ReadTag(b, 0);
    offset, depth := 0, depth0;
    if tag == 1 {
      depth := depth + 1;
    }
  }

  /** The next node after k at whatever depth, the first one for -1; not found if there is none. */
  ghost predicate NextAnywhere(ts: seq<Token>, k: int, j: nat, offset: int) {
    && (0 <= offset ==> k < j && NodeAt(ts, j, offset) && forall i: nat :: k < i < j ==> !IsNode(ts, i))
    && (offset < 0 ==> offset == NOTFOUND && forall i: nat :: k < i ==> !IsNode(ts, i))
  }

  /** fdt_next_node without a depth, from a node or, for a negative offset, from before the root. */
  method NextNodeAnywhere(b: Blob, offset0: int, ghost ts: seq<Token>, ghost k: int) returns (offset: int, ghost j: nat)
    requires Reads(b, ts) && if offset0 < 0 then k == -1 else 0 <= k && TokenStart(ts, k, offset0)
    ensures if k < 0 || IsNode(ts, k) then NextAnywhere(ts, k, j, offset) else offset == BADOFFSET
  {
    hide Offset;
    hide Laid;
    hide Depth;
    LastIsEnd(ts);
    NothingBefore(ts);
    var next := 0;
    j := k + 1;
    if offset0 >= 0 {
      ReadAt(b, ts, k);
      assert offset0 % 4 == 0;
      next := CheckNodeOffset(b, offset0);
      if next < 0 {
        return next, j;
      }
    }
    while true
      invariant j < |ts| && k < j && next == Offset(ts, j) && forall i: nat :: k < i < j ==> !IsNode(ts, i)
      decreases |ts| - j
    {
      ReadAt(b, ts, j);
      offset := next;
      var tag;
      tag, next := ReadTag(b, offset);
      if tag == 1 {
        return;
      }
      if tag == 9 {
        return NOTFOUND, j;
      }
      j := j + 1;
    }
  }

  lemma NothingBefore(ts: seq<Token>)
    ensures Offset(ts, 0) == 0
  {
  }

  lemma LastIsEnd(ts: seq<Token>)
    requires Rooted(ts)
    ensures 0 < |ts| && forall i :: 0 <= i < |ts| ==> (ts[i] == End <==> i == |ts| - 1)
  {
  }

  // ---------- subnodes ----------

  /** j is a direct child of k: one deeper, with k open all the way. */
  ghost predicate Child(ts: seq<Token>, k: nat, j: nat) {
    IsNode(ts, k) && k < j && IsNode(ts, j) && Depth(ts, j) == Depth(ts, k) + 1 && Above(ts, k, j, Depth(ts, k) + 1)
  }

  /** j is a later node at k's level, under the same open node. */
  ghost predicate Sibling(ts: seq<Token>, k: nat, j: nat) {
    k < j && IsNode(ts, j) && k <= |ts| && Depth(ts, j) == Depth(ts, k) && Above(ts, k, j, Depth(ts, k))
  }

  /** The children of a node after one of them are that child's later siblings. */
  lemma ChildrenAreSiblings(ts: seq<Token>, p: nat, k: nat, j: nat)
    requires Child(ts, p, k) && k < j
    ensures Child(ts, p, j) <==> Sibling(ts, k, j)
  {
    hide Depth;
  }

  /** offset is that of the first child j, or says that there is none. */
  ghost predicate FirstChild(ts: seq<Token>, k: nat, j: nat, offset: int) {
    if 0 <= offset then Child(ts, k, j) && NodeAt(ts, j, offset) && forall i: nat :: i < j ==> !Child(ts, k, i)
    else offset == NOTFOUND && forall i: nat :: !Child(ts, k, i)
  }

  ghost predicate NextSibling(ts: seq<Token>, k: nat, j: nat, offset: int) {
    if 0 <= offset then Sibling(ts, k, j) && NodeAt(ts, j, offset) && forall i: nat :: i < j ==> !Sibling(ts, k, i)
    else offset == NOTFOUND && forall i: nat :: !Sibling(ts, k, i)
  }

  /** fdt_first_subnode: the first child, or not found exactly if there is none. */
  method FirstSubnode(b: Blob, offset0: int, ghost ts: seq<Token>, ghost k: nat) returns (offset: int, ghost j: nat)
    requires Reads(b, ts) && NodeAt(ts, k, offset0)
    ensures FirstChild(ts, k, j, offset)
  {
    hide *;
    var depth;
    NodeIsToken(ts, k, offset0);
    offset, depth, j := NextNode(b, offset0, 0, ts, k);
    FirstArrival(ts, k, j, offset, depth);
    if offset < 0 || depth != 1 {
      return NOTFOUND, j;
    }
  }

  lemma FirstArrival(ts: seq<Token>, k: nat, j: nat, r: int, depth: int)
    requires IsNode(ts, k) && Arrives(ts, k, Depth(ts, k + 1), j, r, depth)
    ensures FirstChild(ts, k, j, if r < 0 || depth != 1 then NOTFOUND else r)
  {
    hide Offset;
    assert Depth(ts, k + 1) == Depth(ts, k) + 1;
    DepthFalls(ts, k, j);
    hide Depth;
  }

  lemma {:induction false} DepthFalls(ts: seq<Token>, k: nat, j: nat)
    requires k < j <= |ts| && NoNode(ts, k, j)
    ensures Depth(ts, j) <= Depth(ts, k + 1)
    decreases j
  {
    if k + 1 < j {
      DepthFalls(ts, k, j - 1);
      assert !IsNode(ts, j - 1);
    }
  }

  lemma NodeIsToken(ts: seq<Token>, k: nat, offset: int)
    requires NodeAt(ts, k, offset)
    ensures IsNode(ts, k) && TokenStart(ts, k, offset)
  {
  }

  /** On the way from k to its next sibling: j is k or a node below k. */
  ghost predicate Below(ts: seq<Token>, k: nat, j: nat, offset: int, depth: int) {
    && k <= j && IsNode(ts, k) && NodeAt(ts, j, offset) && 1 <= depth == Depth(ts, j) + 1 - Depth(ts, k)
    && Above(ts, k, j, Depth(ts, k))
    && forall i: nat :: i <= j ==> !Sibling(ts, k, i)
  }

  lemma NextArrival(ts: seq<Token>, k: nat, j: nat, offset: int, depth: int, j': nat, offset': int, depth': int)
    requires Below(ts, k, j, offset, depth) && Arrives(ts, j, Depth(ts, j + 1) - depth, j', offset', depth')
    ensures j < j'
    ensures if offset' < 0 || depth' < 1 then NextSibling(ts, k, j', NOTFOUND)
            else if depth' == 1 then NextSibling(ts, k, j', offset')
            else Below(ts, k, j', offset', depth')
  {
    hide Offset;
    assert Depth(ts, j + 1) == Depth(ts, j) + 1;
    hide Depth;
  }

  /** fdt_next_subnode: the next sibling, or not found exactly if there is none. */
  method NextSubnode(b: Blob, offset0: int, ghost ts: seq<Token>, ghost k: nat) returns (offset: int, ghost j: nat)
    requires Reads(b, ts) && NodeAt(ts, k, offset0)
    ensures NextSibling(ts, k, j, offset)
  {
    hide *;
    var depth := 1;
    offset := offset0;
    j := k;
    StartBelow(ts, k, offset0);
    while true
      invariant Below(ts, k, j, offset, depth)
      decreases |ts| - j
    {
      ghost var was, at, d := j, offset, depth;
      BelowIsNode(ts, k, j, offset, depth);
      offset, depth, j := NextNode(b, offset, depth, ts, j);
      NextArrival(ts, k, was, at, d, j, offset, depth);
      if offset < 0 || depth < 1 {
        return NOTFOUND, j;
      }
      if depth <= 1 {
        return;
      }
    }
  }

  lemma StartBelow(ts: seq<Token>, k: nat, offset: int)
    requires NodeAt(ts, k, offset)
    ensures Below(ts, k, k, offset, 1)
  {
  }

  lemma BelowIsNode(ts: seq<Token>, k: nat, j: nat, offset: int, depth: int)
    requires Below(ts, k, j, offset, depth)
    ensures IsNode(ts, j) && TokenStart(ts, j, offset) && j < |ts| && 0 <= depth
  {
  }

  /** fdt_for_each_subnode: exactly the children, in order. */
  method Subnodes(b: Blob, parent: int, ghost ts: seq<Token>, ghost k: nat)
    returns (offsets: seq<int>, ghost nodes: seq<nat>)
    requires Reads(b, ts) && NodeAt(ts, k, parent)
    ensures |offsets| == |nodes| && forall n :: 0 <= n < |nodes| ==> NodeAt(ts, nodes[n], offsets[n])
    ensures forall n, m :: 0 <= n < m < |nodes| ==> nodes[n] < nodes[m]
    ensures forall j: nat :: j in nodes <==> Child(ts, k, j)
  {
    hide *;
    offsets, nodes := [], [];
    var offset;
    ghost var j;
    offset, j := FirstSubnode(b, parent, ts, k);
    FirstListed(ts, k, j, offset);
    while 0 <= offset
      invariant |offsets| == |nodes| && Listed(ts, k, nodes, if 0 <= offset then j else |ts|)
      invariant 0 <= offset ==> Child(ts, k, j) && NodeAt(ts, j, offset) && j < |ts|
      invariant forall n :: 0 <= n < |nodes| ==> NodeAt(ts, nodes[n], offsets[n])
      decreases if 0 <= offset then |ts| - j else -1
    {
      ghost var was := j;
      offsets, nodes := offsets + [offset], nodes + [j];
      offset, j := NextSubnode(b, offset, ts, j);
      NextListed(ts, k, nodes[..|nodes| - 1], was, j, offset);
      assert nodes[..|nodes| - 1] + [was] == nodes;
    }
    AllListed(ts, k, nodes);
  }

  /** nodes are the children before end, in order. */
  ghost predicate Listed(ts: seq<Token>, k: nat, nodes: seq<nat>, end: nat) {
    && (forall n, m :: 0 <= n < m < |nodes| ==> nodes[n] < nodes[m])
    && forall j: nat :: j in nodes <==> Child(ts, k, j) && j < end
  }

  lemma FirstListed(ts: seq<Token>, k: nat, j: nat, offset: int)
    requires FirstChild(ts, k, j, offset)
    ensures Listed(ts, k, [], if 0 <= offset then j else |ts|)
    ensures 0 <= offset ==> Child(ts, k, j) && NodeAt(ts, j, offset) && j < |ts|
  {
    hide Above;
  }

  lemma NextListed(ts: seq<Token>, k: nat, nodes: seq<nat>, j: nat, j': nat, offset: int)
    requires Listed(ts, k, nodes, j) && Child(ts, k, j) && NextSibling(ts, j, j', offset)
    ensures Listed(ts, k, nodes + [j], if 0 <= offset then j' else |ts|)
    ensures 0 <= offset ==> j < j' && Child(ts, k, j') && NodeAt(ts, j', offset) && j' < |ts|
  {
    forall i: nat | j < i ensures Child(ts, k, i) <==> Sibling(ts, j, i) { ChildrenAreSiblings(ts, k, j, i); }
    hide Child;
    hide Sibling;
    forall i: nat | Child(ts, k, i) ensures i < |ts| { ChildInRange(ts, k, i); }
    SiblingAfter(ts, j, j');
    var end := if 0 <= offset then j' else |ts|;
    forall i: nat ensures i in nodes + [j] <==> Child(ts, k, i) && i < end {
      assert i in nodes <==> Child(ts, k, i) && i < j;
    }
    forall n | 0 <= n < |nodes| ensures nodes[n] < j { assert nodes[n] in nodes; }
  }

  lemma ChildInRange(ts: seq<Token>, k: nat, j: nat)
    requires Child(ts, k, j)
    ensures j < |ts|
  {
  }

  lemma SiblingAfter(ts: seq<Token>, k: nat, j: nat)
    ensures Sibling(ts, k, j) ==> k < j < |ts|
  {
  }

  lemma AllListed(ts: seq<Token>, k: nat, nodes: seq<nat>)
    requires Listed(ts, k, nodes, |ts|)
    ensures forall n, m :: 0 <= n < m < |nodes| ==> nodes[n] < nodes[m]
    ensures forall j: nat :: j in nodes <==> Child(ts, k, j)
  {
    hide Above;
  }

  // ---------- parents ----------

  /** i is the last node up to k that has level nodes open around it. */
  ghost predicate LastAt(ts: seq<Token>, k: nat, level: int, i: nat) {
    i <= k && IsNode(ts, i) && Depth(ts, i) == level && forall m: nat :: i < m <= k && IsNode(ts, m) ==>
      Depth(ts, m) != level
  }

  /** While the depth rises again, some node starts at each level on the way. */
  lemma {:induction false} RisesAt(ts: seq<Token>, m: nat, k: nat, level: int) returns (n: nat)
    requires m <= k <= |ts| && Depth(ts, m) <= level < Depth(ts, k)
    ensures m <= n < k && IsNode(ts, n) && Depth(ts, n) == level
    decreases k
  {
    if Depth(ts, k - 1) <= level {
      n := k - 1;
    } else {
      n := RisesAt(ts, m, k - 1, level);
    }
  }

  /** The node a level up that started last is the one whose child this is. */
  lemma ParentIsLast(ts: seq<Token>, p: nat, k: nat)
    requires IsNode(ts, k)
    ensures Child(ts, p, k) <==> LastAt(ts, k, Depth(ts, k) - 1, p) && p < k && IsNode(ts, p)
  {
    assert Child(ts, p, k) ==> p < |ts|;
    if LastAt(ts, k, Depth(ts, k) - 1, p) && p < k {
      forall m | p < m <= k ensures Depth(ts, p) + 1 <= Depth(ts, m) {
        if Depth(ts, m) <= Depth(ts, p) {
          var n := RisesAt(ts, m, k, Depth(ts, p));
          assert false;
        }
      }
    }
  }

  /** The nodes before j have been passed; sup is where the last of them at this level starts, if there is one. */
  ghost predicate Passed(ts: seq<Token>, j: nat, level: int, i: nat, sup: int) {
    if sup < 0 then forall m: nat :: m < j && IsNode(ts, m) ==> Depth(ts, m) != level
    else i < j && NodeAt(ts, i, sup) && Depth(ts, i) == level
         && forall m: nat :: i < m < j && IsNode(ts, m) ==> Depth(ts, m) != level
  }

  lemma PassNode(ts: seq<Token>, j: nat, level: int, i: nat, sup: int)
    requires Passed(ts, j, level, i, sup) && IsNode(ts, j) && 0 <= level
    ensures var at := Depth(ts, j) == level;
            var i', sup' := if at then j else i, if at then Offset(ts, j) else sup;
            && Passed(ts, j + 1, level, i', sup')
            && (level <= Depth(ts, j) ==> LastAt(ts, j, level, i') && sup' == Offset(ts, i'))
  {
    hide Offset;
    if level < Depth(ts, j) {
      var n := RisesAt(ts, 0, j, level);
    }
  }

  lemma PassGap(ts: seq<Token>, j: nat, level: int, i: nat, sup: int, k: nat)
    requires Passed(ts, j + 1, level, i, sup) && NoNode(ts, j, k) && j < k
    ensures Passed(ts, k, level, i, sup)
  {
    hide Offset;
    hide Depth;
  }

  /** What fdt_supernode_atdepth_offset answers: the node at that level around (or at) node k. */
  ghost predicate Super(ts: seq<Token>, k: nat, level: int, i: nat, r: int) {
    IsNode(ts, k) && if level <= Depth(ts, k) then LastAt(ts, k, level, i) && r == Offset(ts, i) else r == NOTFOUND
  }

  ghost predicate NoNodeAt(ts: seq<Token>, offset: int) { forall k: nat :: !NodeAt(ts, k, offset) }

  ghost predicate Searched(ts: seq<Token>, j: nat, offset: int) { forall m: nat :: m < j ==> !NodeAt(ts, m, offset) }

  /** The state of the search: at node j; or, with depth -1, past the root; or stopped by an error. */
  ghost predicate Seeking(ts: seq<Token>, goal: int, level: int, j: nat, offset: int, depth: int, i: nat, sup: int) {
    if offset < 0 then
      Searched(ts, |ts|, goal)
    else if depth < 0 then
      depth == -1 && TokenStart(ts, j, offset) && !IsNode(ts, j) && Searched(ts, |ts|, goal)
    else
      NodeAt(ts, j, offset) && depth == Depth(ts, j) && Passed(ts, j, level, i, sup) && Searched(ts, j, goal)
  }

  lemma SeekStart(ts: seq<Token>, goal: int, level: int)
    requires Rooted(ts)
    ensures Seeking(ts, goal, level, 0, 0, 0, 0, INTERNAL)
  {
  }

  /** From node j on: the record of the last node at the level, and the walk's arrival. */
  lemma SeekStep(ts: seq<Token>, goal: int, level: int, j: nat, offset: int, depth: int, i: nat, sup: int,
                 j': nat, offset': int, depth': int)
    requires Rooted(ts) && 0 <= level && 0 <= offset != goal && 0 <= depth
    requires Seeking(ts, goal, level, j, offset, depth, i, sup) && j < |ts| && IsNode(ts, j)
    requires Arrives(ts, j, Depth(ts, j + 1) - depth, j', offset', depth')
    ensures j < j'
    ensures Seeking(ts, goal, level, j', offset', depth', if depth == level then j else i,
                    if depth == level then offset else sup)
  {
    hide Offset;
    PassNode(ts, j, level, i, sup);
    PassGap(ts, j, level, if depth == level then j else i, if depth == level then offset else sup, j');
    assert Depth(ts, j + 1) == Depth(ts, j) + 1;
    if 0 <= offset' && depth' < 0 { assert Depth(ts, j') == 0 && j' == |ts| - 1; }
    hide Depth;
  }

  lemma SeekEnd(ts: seq<Token>, goal: int, level: int, j: nat, offset: int, depth: int, i: nat, sup: int)
    requires Seeking(ts, goal, level, j, offset, depth, i, sup) && (offset < 0 || goal < offset)
    ensures NoNodeAt(ts, goal)
  {
    hide Offset;
    if 0 <= offset && 0 <= depth {
      forall m: nat ensures !NodeAt(ts, m, goal) {
        if j <= m && IsNode(ts, m) { OffsetOrder(ts, m, j); }
      }
    }
  }

  lemma SeekFound(ts: seq<Token>, goal: int, level: int, j: nat, depth: int, i: nat, sup: int)
    requires Seeking(ts, goal, level, j, goal, depth, i, sup) && 0 <= level && 0 <= goal
    ensures if depth < 0 then NoNodeAt(ts, goal)
            else NodeAt(ts, j, goal) && depth == Depth(ts, j) && !NoNodeAt(ts, goal)
    ensures 0 <= depth ==>
              Super(ts, j, level, if depth == level then j else i,
                    if level > depth then NOTFOUND else if depth == level then goal else sup)
  {
    hide Offset;
    if 0 <= depth { PassNode(ts, j, level, i, sup); }
  }

  lemma SeekAt(ts: seq<Token>, goal: int, level: int, j: nat, offset: int, depth: int, i: nat, sup: int)
    requires Seeking(ts, goal, level, j, offset, depth, i, sup) && 0 <= offset
    ensures j < |ts| && TokenStart(ts, j, offset) && (IsNode(ts, j) <==> 0 <= depth)
    ensures depth < 0 ==> Searched(ts, |ts|, goal)
  {
  }

  /** fdt_supernode_atdepth_offset. */
  method SupernodeAtDepth(b: Blob, nodeoffset: int, level: int, ghost ts: seq<Token>)
    returns (r: int, nodedepth: int, ghost k: nat, ghost i: nat)
    requires Reads(b, ts)
    ensures if level < 0 then r == NOTFOUND
            else if NoNodeAt(ts, nodeoffset) then r < 0
            else NodeAt(ts, k, nodeoffset) && nodedepth == Depth(ts, k) && Super(ts, k, level, i, r)
  {
    hide *;
    nodedepth, k, i := -1, 0, 0;
    if level < 0 {
      return NOTFOUND, nodedepth, k, i;
    }
    r := INTERNAL;
    ErrorsAreNegative();
    ReadsParts(b, ts);
    SeekStart(ts, nodeoffset, level);
    var offset, depth := 0, 0;
    while 0 <= offset && offset <= nodeoffset
      invariant Seeking(ts, nodeoffset, level, k, offset, depth, i, r)
      decreases if 0 <= offset then |ts| - k else -1
    {
      SeekAt(ts, nodeoffset, level, k, offset, depth, i, r);
      ghost var sup, j, at, was := r, k, offset, depth;
      if depth == level {
        r := offset;
      }
      if offset == nodeoffset {
        SeekFound(ts, nodeoffset, level, k, depth, i, sup);
        nodedepth := depth;
        i := if depth == level then k else i;
        if level > depth {
          return NOTFOUND, nodedepth, k, i;
        }
        return r, nodedepth, k, i;
      }
      offset, depth, k := NextNode(b, offset, depth, ts, k);
      if 0 <= was {
        SeekStep(ts, nodeoffset, level, j, at, was, i, sup, k, offset, depth);
        i := if was == level then j else i;
      } else {
        SeekStop(ts, nodeoffset, level, k, offset, depth, i, r);
      }
    }
    SeekEnd(ts, nodeoffset, level, k, offset, depth, i, r);
    r := if offset == NOTFOUND || 0 <= offset then BADOFFSET else if offset == BADOFFSET then BADSTRUCTURE else offset;
  }

  lemma SeekStop(ts: seq<Token>, goal: int, level: int, j: nat, offset: int, depth: int, i: nat, sup: int)
    requires offset < 0 && Searched(ts, |ts|, goal)
    ensures Seeking(ts, goal, level, j, offset, depth, i, sup)
  {
  }

  lemma ErrorsAreNegative()
    ensures NOTFOUND < 0 && BADOFFSET < 0 && BADSTRUCTURE < 0 && INTERNAL < 0
  {
  }

  lemma ReadsParts(b: Blob, ts: seq<Token>)
    requires Reads(b, ts)
    ensures Rooted(ts) && StructOk(b)
  {
  }

  /** fdt_node_depth. */
  method NodeDepth(b: Blob, nodeoffset: int, ghost ts: seq<Token>) returns (r: int, ghost k: nat)
    requires Reads(b, ts)
    ensures if NoNodeAt(ts, nodeoffset) then r < 0 else NodeAt(ts, k, nodeoffset) && 0 <= r == Depth(ts, k)
  {
    hide *;
    var err, nodedepth;
    ghost var i;
    err, nodedepth, k, i := SupernodeAtDepth(b, nodeoffset, 0, ts);
    if !NoNodeAt(ts, nodeoffset) { ReadsParts(b, ts); RootIsZero(ts, k, i, err); }
    if err != 0 {
      return if err < 0 then err else INTERNAL, k;
    }
    r := nodedepth;
  }

  lemma RootIsZero(ts: seq<Token>, k: nat, i: nat, r: int)
    requires Rooted(ts) && Super(ts, k, 0, i, r)
    ensures r == 0 && 0 <= Depth(ts, k)
  {
    assert Depth(ts, k) >= 0;
    assert i == 0;
  }

  /** fdt_parent_offset: the node whose child this is; the root has none. */
  method ParentOffset(b: Blob, nodeoffset: int, ghost ts: seq<Token>) returns (r: int, ghost k: nat, ghost p: nat)
    requires Reads(b, ts)
    ensures if NoNodeAt(ts, nodeoffset) then r < 0
            else NodeAt(ts, k, nodeoffset) && if k == 0 then r == NOTFOUND else Child(ts, p, k) && NodeAt(ts, p, r)
  {
    hide *;
    var nodedepth, d;
    nodedepth, k := NodeDepth(b, nodeoffset, ts);
    p := 0;
    if nodedepth < 0 {
      return nodedepth, k, p;
    }
    ghost var k';
    r, d, k', p := SupernodeAtDepth(b, nodeoffset, nodedepth - 1, ts);
    ReadsParts(b, ts);
    if !NoNodeAt(ts, nodeoffset) { ParentFound(ts, nodeoffset, k, k', p, r); }
  }

  lemma ParentFound(ts: seq<Token>, offset: int, k: nat, k': nat, p: nat, r: int)
    requires Rooted(ts) && NodeAt(ts, k, offset)
    requires if Depth(ts, k) == 0 then r == NOTFOUND
             else NodeAt(ts, k', offset) && Super(ts, k', Depth(ts, k) - 1, p, r)
    ensures if k == 0 then r == NOTFOUND else Child(ts, p, k) && NodeAt(ts, p, r)
  {
    hide Offset;
    if k != 0 {
      assert Depth(ts, k) != 0;
      OffsetOrder(ts, k, k');
      ParentIsLast(ts, p, k);
      assert p != k;
    }
  }
}
