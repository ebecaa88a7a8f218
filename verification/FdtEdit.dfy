/** libfdt's in-place editor: fdt_setprop, by splicing bytes into a finished blob. */
module FdtEdit {
  import opened Common
  import opened FdtTokens
  import opened FdtReader
  import opened FdtCheck
  import opened FdtBytes

  const NOSPACE: int := -3
  const BADLAYOUT: int := -12

  // ---------- what a blob reads as ----------

  datatype Item = Node(name: seq<Byte>) | NodeEnd | Field(name: seq<Byte>, value: seq<Byte>) | Gap | Stop

  ghost predicate Named(b: Blob, t: Token)
    requires StringsOk(b)
  {
    t.Prop? ==> t.nameoff < U32 && NameAt(StringsOf(b), Signed(t.nameoff)).Some?
  }

  ghost function ItemOf(b: Blob, t: Token): Item
    requires StringsOk(b) && Named(b, t)
  {
    match t
    case BeginNode(name) => Node(name)
    case EndNode => NodeEnd
    case Prop(nameoff, value) => Field(NameAt(StringsOf(b), Signed(nameoff)).value, value)
    case Nop => Gap
    case End => Stop
  }

  ghost predicate AllNamed(b: Blob, ts: seq<Token>)
    requires StringsOk(b)
  {
    forall i :: 0 <= i < |ts| ==> Named(b, ts[i])
  }

  ghost predicate NamedAt(b: Blob, ts: seq<Token>, p: nat) {
    StringsOk(b) && p < |ts| && ts[p].Prop? && Named(b, ts[p])
  }

  ghost function Reading(b: Blob, ts: seq<Token>): (r: seq<Item>)
    requires StringsOk(b) && AllNamed(b, ts)
    ensures |r| == |ts|
  {
    seq(|ts|, i requires 0 <= i < |ts| => ItemOf(b, ts[i]))
  }

  /** Reserve map, structure and strings one after the other, as the editor needs them. */
  ghost predicate Ordered(h: Header) {
    && 40 <= h.offRsvmap && h.offRsvmap + 16 <= h.offStruct
    && h.offStruct + h.sizeStruct <= h.offStrings && h.offStrings + h.sizeStrings <= h.totalsize
  }

  /** A blob that can be edited: it reads as a tree, and its blocks are in order. */
  ghost predicate Editable(b: Blob, ts: seq<Token>) {
    b.h.magic == FDT_MAGIC && Ordered(b.h) && StringsOk(b) && Reads(b, ts) && AllNamed(b, ts)
  }

  /** No end of a block wraps 32 bits. */
  ghost predicate NoWrap(h: Header) {
    h.offRsvmap + 16 < U32 && h.offStruct + h.sizeStruct < U32 && h.offStrings + h.sizeStrings < U32
  }

  /** fdt_rw_probe_: blocks in order pass, and what passes is in order exactly if no block's end wraps 32 bits.
      Only one entry's room is asked for before the structure block. */
  method RwProbe(h0: Header) returns (err: int, h: Header)
    requires Words(h0)
    ensures 0 <= RoProbe(h0) && 17 <= h0.version && Ordered(h0) ==> err == 0
    ensures err == 0 ==>
              0 <= RoProbe(h0) && 17 <= h0.version && (Ordered(h0) <==> NoWrap(h0)) && h == h0.(version := 17)
    ensures err != 0 ==> h == h0
  {
    h := h0;
    if RoProbe(h) < 0 {
      return RoProbe(h), h;
    }
    if h.version < 17 {
      return BADVERSION, h;
    }
    if || h.offRsvmap < 40 || h.offStruct < (h.offRsvmap + 16) % U32
       || h.offStrings < (h.offStruct + h.sizeStruct) % U32 || h.totalsize < (h.offStrings + h.sizeStrings) % U32 {
      return BADLAYOUT, h;
    }
    if h.version > 17 {
      h := h.(version := 17);
    }
    err := 0;
  }

  // ---------- the edit, on items ----------

  /** From node k on, only fields and gaps before p. */
  ghost predicate Run(items: seq<Item>, k: nat, p: nat) {
    k < p < |items| && forall i :: k < i < p ==> items[i].Field? || items[i].Gap?
  }

  /** p is node k's first field of this name. */
  ghost predicate FieldAt(items: seq<Item>, k: nat, name: seq<Byte>, p: nat) {
    && Run(items, k, p) && items[p].Field? && items[p].name == name
    && forall i :: k < i < p && items[i].Field? ==> items[i].name != name
  }

  /** Node k has no field of this name. */
  ghost predicate NoField(items: seq<Item>, k: nat, name: seq<Byte>) { forall p: nat :: !FieldAt(items, k, name, p) }

  /** items' is items with the field set: replaced where it was, or put first. */
  ghost predicate IsSet(items: seq<Item>, k: nat, name: seq<Byte>, value: seq<Byte>, p: nat, items': seq<Item>) {
    if FieldAt(items, k, name, p) then items' == items[p := Field(name, value)]
    else NoField(items, k, name) && k < |items| && items' == items[..k + 1] + [Field(name, value)] + items[k + 1..]
  }

  /** A set field reads back, as the node's first field of its name. */
  lemma SetReadsBack(items: seq<Item>, k: nat, name: seq<Byte>, value: seq<Byte>, p: nat, items': seq<Item>)
    requires IsSet(items, k, name, value, p, items') && k + 1 < |items|
    ensures var q := if FieldAt(items, k, name, p) then p else k + 1;
            FieldAt(items', k, name, q) && items'[q] == Field(name, value)
  {
  }

  // ---------- a token put between others ----------

  function Splice(ts: seq<Token>, i: nat, j: nat, t: Token): seq<Token>
    requires i <= j <= |ts|
  {
    ts[..i] + [t] + ts[j..]
  }

  lemma {:induction false} SpliceOffset(ts: seq<Token>, i: nat, j: nat, t: Token, m: nat)
    requires i <= j <= |ts| && m <= |ts| - j + i + 1
    ensures Offset(Splice(ts, i, j, t), m) ==
            if m <= i then Offset(ts, m) else Offset(ts, i) + Size(t) + Offset(ts, m - i - 1 + j) - Offset(ts, j)
    decreases m
  {
    hide Size;
    hide Offset;
    var us := Splice(ts, i, j, t);
    if m == 0 {
      NoOffset(us);
      NoOffset(ts);
    } else {
      SpliceOffset(ts, i, j, t, m - 1);
      OffsetStep(us, m - 1);
      if m <= i { OffsetStep(ts, m - 1); } else if m > i + 1 { OffsetStep(ts, m - i - 2 + j); }
    }
  }

  lemma OffsetStep(ts: seq<Token>, k: nat)
    requires k < |ts|
    ensures Offset(ts, k + 1) == Offset(ts, k) + Size(ts[k])
  {
  }

  lemma NoOffset(ts: seq<Token>)
    ensures Offset(ts, 0) == 0
  {
  }

  /** Bytes spliced between tokens: those before stay, those after move as they are. */
  lemma SpliceLaid(s: seq<Byte>, s': seq<Byte>, ts: seq<Token>, i: nat, j: nat, t: Token)
    requires Laid(s, ts) && i <= j <= |ts| && Offset(ts, i) <= |s| && Offset(ts, j) <= |s|
    requires var a, z := Offset(ts, i), Offset(ts, i) + Size(t);
             && Holds(s', a, t) && a <= |s'| && z <= |s'|
             && s'[..a] == s[..a] && s'[z..] == s[Offset(ts, j)..]
    ensures Laid(s', Splice(ts, i, j, t))
  {
    hide Offset;
    hide Holds;
    hide Size;
    var us := Splice(ts, i, j, t);
    var a, z, y := Offset(ts, i), Offset(ts, i) + Size(t), Offset(ts, j);
    forall m | 0 <= m < |us| ensures Holds(s', Offset(us, m), us[m]) {
      SpliceOffset(ts, i, j, t, m);
      if m < i {
        assert Holds(s, Offset(ts, m), ts[m]);
        OffsetGrows(ts, m, i);
        HoldsBefore(s, s', a, Offset(ts, m), ts[m]);
      } else if m > i {
        var q := m - i - 1 + j;
        assert us[m] == ts[q];
        assert Holds(s, Offset(ts, q), ts[q]);
        if j < q { OffsetGrows(ts, j, q); }
        HoldsAfter(s, s', y, z, Offset(ts, q), ts[q]);
      }
    }
  }

  lemma HoldsBefore(s: seq<Byte>, s': seq<Byte>, a: nat, off: nat, t: Token)
    requires Holds(s, off, t) && off + Used(t) <= a <= |s| && a <= |s'| && s'[..a] == s[..a]
    ensures Holds(s', off, t)
  {
    hide Holds;
    forall j | off <= j < off + Used(t) ensures s[j] == s'[j - off + off] { assert s[..a][j] == s'[..a][j]; }
    HoldsLocal(s, off, s', off, t);
  }

  lemma HoldsAfter(s: seq<Byte>, s': seq<Byte>, y: nat, z: nat, off: nat, t: Token)
    requires Holds(s, off, t) && y <= off && y <= |s| && z <= |s'| && s'[z..] == s[y..]
    ensures Holds(s', off - y + z, t)
  {
    assert off + Used(t) <= |s|;
    hide Holds;
    forall j | off <= j < off + Used(t) ensures s[j] == s'[j - off + (off - y + z)] {
      assert s[y..][j - y] == s'[z..][j - y];
    }
    HoldsLocal(s, off, s', off - y + z, t);
  }

  lemma {:induction false} SpliceDepth(ts: seq<Token>, i: nat, j: nat, t: Token, m: nat)
    requires i <= j <= |ts| && m <= |ts| - j + i + 1 && t.Prop? && (j == i || (j == i + 1 && ts[i].Prop?))
    ensures Depth(Splice(ts, i, j, t), m) == if m <= i then Depth(ts, m) else Depth(ts, m - i - 1 + j)
    decreases m
  {
    if m > 0 { SpliceDepth(ts, i, j, t, m - 1); }
  }

  ghost predicate CanSplice(ts: seq<Token>, i: nat, j: nat, t: Token) {
    0 < i <= j < |ts| && 1 <= Depth(ts, i) && t.Prop? && (j == i || (j == i + 1 && ts[i].Prop?))
  }

  lemma SpliceOpen(ts: seq<Token>, i: nat, j: nat, t: Token, m: nat)
    requires Rooted(ts) && CanSplice(ts, i, j, t) && 0 < m < |Splice(ts, i, j, t)| - 1
    ensures 1 <= Depth(Splice(ts, i, j, t), m)
  {
    hide Depth;
    SpliceDepth(ts, i, j, t, m);
    var q := if m <= i then m else m - i - 1 + j;
    assert q < |ts| - 1;
  }

  lemma SpliceToken(ts: seq<Token>, i: nat, j: nat, t: Token, m: nat)
    requires i <= j <= |ts| && m < |Splice(ts, i, j, t)|
    ensures Splice(ts, i, j, t)[m] == if m < i then ts[m] else if m == i then t else ts[m - i - 1 + j]
  {
  }

  /** A property put in or replaced leaves a tree a tree. */
  lemma SpliceRooted(ts: seq<Token>, i: nat, j: nat, t: Token)
    requires Rooted(ts) && CanSplice(ts, i, j, t)
    ensures Rooted(Splice(ts, i, j, t))
  {
    hide Depth;
    var us := Splice(ts, i, j, t);
    var n := |us| - 1;
    SpliceDepth(ts, i, j, t, n);
    forall m | 0 < m < n ensures 1 <= Depth(us, m) { SpliceOpen(ts, i, j, t, m); }
    SpliceToken(ts, i, j, t, 0);
    SpliceToken(ts, i, j, t, n);
    forall m | 0 <= m < n ensures us[m] != End { SpliceToken(ts, i, j, t, m); }
    hide Splice;
  }

  // ---------- looking a property up ----------

  /** Tokens i up to p are padding, inside some node. */
  ghost predicate Gaps(ts: seq<Token>, i: nat, p: nat) {
    i <= p < |ts| && 1 <= Depth(ts, p) && forall m :: i <= m < p ==> ts[m] == Nop
  }

  /** nextprop_: the next property of the node, past any padding. */
  method NextProp(b: Blob, offset0: int, ghost ts: seq<Token>, ghost i: nat) returns (offset: int, ghost p: nat)
    requires Reads(b, ts) && TokenStart(ts, i, offset0) && 1 <= Depth(ts, i)
    ensures p < |ts| && Gaps(ts, i, p) && ts[p] != Nop
    ensures if ts[p].Prop? then offset == Offset(ts, p) else offset == NOTFOUND
  {
    hide Offset;
    hide Laid;
    hide Rooted;
    ReadsParts(b, ts);
    offset := offset0;
    p := i;
    while true
      invariant Gaps(ts, i, p) && offset == Offset(ts, p)
      decreases |ts| - p
    {
      ReadAt(b, ts, p);
      NotEnd(ts, p);
      var tag, next := ReadTag(b, offset);
      if tag == 9 {
        return if next >= 0 then BADSTRUCTURE else next, p;
      }
      if tag == 3 {
        return;
      }
      offset := next;
      if tag != 4 {
        return NOTFOUND, p;
      }
      NotLast(ts, p);
      p := p + 1;
    }
  }

  lemma NotEnd(ts: seq<Token>, p: nat)
    requires Rooted(ts) && p < |ts| && 1 <= Depth(ts, p)
    ensures ts[p] != End
  {
  }

  lemma NotLast(ts: seq<Token>, p: nat)
    requires Rooted(ts) && p < |ts| && ts[p] != End
    ensures p + 1 < |ts| && (ts[p] == Nop || ts[p].Prop? ==> Depth(ts, p + 1) == Depth(ts, p))
    ensures ts[p].BeginNode? ==> 1 <= Depth(ts, p + 1)
  {
    if ts[p].BeginNode? {
      assert 0 < p + 1 <= |ts| - 1;
      assert p + 1 == |ts| - 1 ==> Depth(ts, p + 1) == 0;
      assert 0 <= Depth(ts, p);
    }
  }

  /** Between node k and p only padding and properties of other names. */
  ghost predicate Past(b: Blob, ts: seq<Token>, k: nat, name: seq<Byte>, p: nat)
    requires StringsOk(b)
  {
    && k < p < |ts| && 1 <= Depth(ts, p)
    && forall m :: k < m < p ==> ts[m] == Nop || (ts[m].Prop? && Named(b, ts[m]) && ItemOf(b, ts[m]).name != name)
  }

  lemma PastNone(b: Blob, ts: seq<Token>, k: nat, name: seq<Byte>)
    requires StringsOk(b) && k + 1 < |ts| && 1 <= Depth(ts, k + 1)
    ensures Past(b, ts, k, name, k + 1)
  {
  }

  lemma PastGaps(b: Blob, ts: seq<Token>, k: nat, name: seq<Byte>, i: nat, p: nat)
    requires StringsOk(b) && Past(b, ts, k, name, i) && Gaps(ts, i, p)
    ensures Past(b, ts, k, name, p) && i <= p
  {
    hide Depth;
    hide Named;
    hide ItemOf;
  }

  lemma PastOther(b: Blob, ts: seq<Token>, k: nat, name: seq<Byte>, p: nat)
    requires StringsOk(b) && Rooted(ts) && Past(b, ts, k, name, p)
    requires p < |ts| && ts[p].Prop? && Named(b, ts[p]) && ItemOf(b, ts[p]).name != name
    ensures p + 1 < |ts| && Past(b, ts, k, name, p + 1) && 1 <= Depth(ts, p + 1)
  {
    NotLast(ts, p);
    hide Depth;
    hide Rooted;
  }

  lemma FieldFound(b: Blob, ts: seq<Token>, k: nat, name: seq<Byte>, p: nat)
    requires StringsOk(b) && AllNamed(b, ts) && p < |ts| && Past(b, ts, k, name, p)
    ensures ts[p].Prop? && ItemOf(b, ts[p]).name == name ==> FieldAt(Reading(b, ts), k, name, p)
    ensures ts[p] != Nop && !ts[p].Prop? ==> NoField(Reading(b, ts), k, name)
  {
    hide Depth;
    hide NameAt;
    var items := Reading(b, ts);
    forall m | k < m < p ensures (items[m].Field? && items[m].name != name) || items[m].Gap? {}
    if ts[p] != Nop && !ts[p].Prop? {
      forall q: nat ensures !FieldAt(items, k, name, q) {
        assert !items[p].Field? && !items[p].Gap?;
      }
    }
  }

  /** An int at which no node's tag is read. */
  ghost predicate Refused(b: Blob, offset: int)
    requires StructOk(b)
  {
    -0x8000_0000 <= offset <= INT_MAX && (offset % 4 == 0 ==> NextTag(StructOf(b), offset).tag != 1)
  }

  /** fdt_get_property_namelen: where the node's first property of this name starts. */
  method GetProperty(b: Blob, nodeoffset: int, name: seq<Byte>, ghost ts: seq<Token>, ghost k: nat)
    returns (offset: int, ghost p: nat)
    requires Editable(b, ts) && (NodeAt(ts, k, nodeoffset) || Refused(b, nodeoffset))
    ensures if Refused(b, nodeoffset) then offset == BADOFFSET
            else if 0 <= offset then TokenStart(ts, p, offset) && ts[p].Prop? && FieldAt(Reading(b, ts), k, name, p)
            else offset == NOTFOUND && NoField(Reading(b, ts), k, name)
  {
    hide Offset;
    hide Laid;
    hide Rooted;
    hide Depth;
    hide Reading;
    hide NameAt;
    hide Named;
    hide ItemOf;
    hide NextTag;
    hide FieldAt;
    hide NoField;
    hide Past;
    hide Gaps;
    ReadsParts(b, ts);
    if NodeAt(ts, k, nodeoffset) { NodeThere(b, ts, k, nodeoffset); }
    var next := CheckNodeOffset(b, nodeoffset);
    if next < 0 {
      return next, k;
    }
    ReadAt(b, ts, k);
    NotLast(ts, k);
    PastNone(b, ts, k, name);
    offset, p := NextProp(b, next, ts, k + 1);
    PastGaps(b, ts, k, name, k + 1, p);
    while 0 <= offset
      invariant p < |ts| && Past(b, ts, k, name, p) && ts[p] != Nop
      invariant if ts[p].Prop? then offset == Offset(ts, p) else offset == NOTFOUND
      decreases |ts| - p
    {
      ReadAt(b, ts, p);
      var equal := StringEq(b, offset, name, ts, p);
      if equal {
        FieldFound(b, ts, k, name, p);
        return;
      }
      PastOther(b, ts, k, name, p);
      ghost var was := p;
      var tag;
      tag, next := ReadTag(b, offset);
      offset, p := NextProp(b, next, ts, p + 1);
      PastGaps(b, ts, k, name, was + 1, p);
    }
    FieldFound(b, ts, k, name, p);
  }

  /** fdt_string_eq_ on the name of the property at offset. */
  method StringEq(b: Blob, offset: nat, name: seq<Byte>, ghost ts: seq<Token>, ghost p: nat) returns (equal: bool)
    requires Editable(b, ts) && TokenStart(ts, p, offset) && ts[p].Prop?
    ensures Named(b, ts[p]) && (equal <==> ItemOf(b, ts[p]).name == name)
  {
    hide Offset;
    hide Rooted;
    hide NameAt;
    hide Word;
    assert Holds(StructOf(b), Offset(ts, p), ts[p]);
    WordInBlock(b, offset + 8);
    assert Named(b, ts[p]);
    var found := GetString(b, Signed(WordAt(b, offset + 8)));
    return found == Some(name);
  }

  // ---------- what each store keeps ----------

  function DataSize(h: Header): nat { h.offStrings + h.sizeStrings }

  /** m' is m with the oldlen bytes at a place given up for newlen others, and what follows moved. */
  ghost predicate Spliced(m: seq<Byte>, m': seq<Byte>, at: nat, oldlen: nat, newlen: nat, size: nat) {
    && |m'| == |m| && at + oldlen <= size <= |m| && size - oldlen + newlen <= |m|
    && m'[..at] == m[..at] && m'[at + newlen..size - oldlen + newlen] == m[at + oldlen..size]
  }

  /** The header after a splice in the structure block. */
  function Grown(h: Header, oldlen: nat, newlen: nat): Header
    requires oldlen <= h.sizeStruct && oldlen <= h.offStrings
  {
    h.(sizeStruct := h.sizeStruct - oldlen + newlen, offStrings := h.offStrings - oldlen + newlen)
  }

  lemma ReadingKept(b: Blob, b': Blob, ts: seq<Token>)
    requires StringsOk(b) && StringsOk(b') && StringsOf(b') == StringsOf(b) && AllNamed(b, ts)
    ensures AllNamed(b', ts) && Reading(b', ts) == Reading(b, ts)
  {
    hide NameAt;
    forall i | 0 <= i < |ts| ensures Named(b', ts[i]) { assert Named(b, ts[i]); }
  }

  lemma FdtStrings(b: Blob)
    requires StringsOk(b) && b.h.magic == FDT_MAGIC
    ensures StringsOf(b) == b.mem[b.h.offStrings..b.h.offStrings + b.h.sizeStrings]
  {
  }

  /** Bytes past the data do not matter. */
  lemma SameData(b: Blob, b': Blob, ts: seq<Token>)
    requires Editable(b, ts) && b'.h == b.h && |b'.mem| == |b.mem|
    requires b'.mem[..DataSize(b.h)] == b.mem[..DataSize(b.h)]
    ensures Editable(b', ts) && Reading(b', ts) == Reading(b, ts)
  {
    hide Laid;
    hide Rooted;
    hide AllNamed;
    hide Reading;
    var n, h := DataSize(b.h), b.h;
    SameSlice(b.mem, b'.mem, n, h.offStruct, h.offStruct + h.sizeStruct);
    SameSlice(b.mem, b'.mem, n, h.offStrings, h.offStrings + h.sizeStrings);
    FdtStrings(b);
    FdtStrings(b');
    hide StringsOf;
    ReadingKept(b, b', ts);
  }

  lemma SameSlice(m: seq<Byte>, m': seq<Byte>, n: nat, lo: nat, hi: nat)
    requires lo <= hi <= n <= |m| && n <= |m'| && m[..n] == m'[..n]
    ensures m[lo..hi] == m'[lo..hi]
  {
    assert m[lo..hi] == m[..n][lo..hi];
    assert m'[lo..hi] == m'[..n][lo..hi];
  }

  /** A name put after the strings. */
  lemma StringAdded(b: Blob, b': Blob, ts: seq<Token>, name: seq<Byte>)
    requires Editable(b, ts) && 0 !in name && b'.h == b.h.(sizeStrings := b.h.sizeStrings + |name| + 1)
    requires DataSize(b'.h) <= b.h.totalsize && |b'.mem| == |b.mem|
    requires b'.mem[..DataSize(b.h)] == b.mem[..DataSize(b.h)]
    requires b'.mem[DataSize(b.h)..DataSize(b'.h)] == name + [0]
    ensures Editable(b', ts) && Reading(b', ts) == Reading(b, ts)
    ensures NameAt(StringsOf(b'), b.h.sizeStrings) == Some(name)
  {
    hide Laid;
    hide Rooted;
    hide NameAt;
    hide Named;
    hide ItemOf;
    var n, h := DataSize(b.h), b.h;
    SameSlice(b.mem, b'.mem, n, h.offStruct, h.offStruct + h.sizeStruct);
    StringsGrow(b, b', name);
    hide StringsOf;
    NameAtEnd(StringsOf(b), name);
    forall i | 0 <= i < |ts| ensures Named(b', ts[i]) && ItemOf(b', ts[i]) == ItemOf(b, ts[i]) {
      assert Named(b, ts[i]);
      ItemKept(b, b', name + [0], ts[i]);
    }
  }

  lemma StringsGrow(b: Blob, b': Blob, name: seq<Byte>)
    requires StringsOk(b) && b.h.magic == FDT_MAGIC && b'.h == b.h.(sizeStrings := b.h.sizeStrings + |name| + 1)
    requires DataSize(b'.h) <= b.h.totalsize && |b'.mem| == |b.mem|
    requires b'.mem[..DataSize(b.h)] == b.mem[..DataSize(b.h)]
    requires b'.mem[DataSize(b.h)..DataSize(b'.h)] == name + [0]
    ensures StringsOk(b') && StringsOf(b') == [] + StringsOf(b) + (name + [0]) == StringsOf(b) + (name + [0])
  {
    var n, back := DataSize(b.h), name + [0];
    SameSlice(b.mem, b'.mem, n, b.h.offStrings, n);
    FdtStrings(b);
    FdtStrings(b');
    JoinSlices(b'.mem, b.h.offStrings, n, n + |back|);
    assert [] + StringsOf(b) == StringsOf(b);
  }

  /** More strings behind those there are leave a token reading the same. */
  lemma ItemKept(b: Blob, b': Blob, back: seq<Byte>, t: Token)
    requires StringsOk(b) && StringsOk(b') && StringsOf(b') == [] + StringsOf(b) + back && Named(b, t)
    ensures Named(b', t) && ItemOf(b', t) == ItemOf(b, t)
  {
    hide NameAt;
    hide StringsOf;
    if t.Prop? {
      var p := Signed(t.nameoff);
      NamesKept([], StringsOf(b), back, p, NameAt(StringsOf(b), p).value);
    }
  }

  lemma JoinSlices(m: seq<Byte>, lo: nat, mid: nat, hi: nat)
    requires lo <= mid <= hi <= |m|
    ensures m[lo..hi] == m[lo..mid] + m[mid..hi]
  {
  }

  lemma NameAtEnd(strs: seq<Byte>, name: seq<Byte>)
    requires 0 !in name
    ensures NameAt(strs + (name + [0]), |strs|) == Some(name)
  {
    hide NameAt;
    var all := strs + (name + [0]);
    assert all[|strs|..|strs| + |name|] == name;
    NameIsString(all, |strs|, name);
  }

  /** A property spliced in, or over another, once its bytes are stored. */
  lemma PropertySpliced(b: Blob, b': Blob, ts: seq<Token>, i: nat, j: nat, t: Token, a: nat, z: nat, n: nat)
    requires Editable(b, ts) && CanSplice(ts, i, j, t) && Named(b, t)
    requires a == Offset(ts, i) <= z == Offset(ts, j) <= b.h.sizeStruct && n == Size(t)
    requires SplicedBlob(b, b', a, z - a, n)
    requires StructOk(b') && Holds(StructOf(b'), a, t)
    ensures Editable(b', Splice(ts, i, j, t))
    ensures Reading(b', Splice(ts, i, j, t)) == Reading(b, ts)[..i] + [ItemOf(b, t)] + Reading(b, ts)[j..]
  {
    hide Laid;
    hide Rooted;
    hide Offset;
    hide Holds;
    hide NameAt;
    hide AllNamed;
    hide Reading;
    StringsSpliced(b, b', a, z - a, n);
    StructSpliced(b, b', a, z - a, n);
    hide Spliced;
    hide StringsOf;
    hide StructOf;
    SpliceLaid(StructOf(b), StructOf(b'), ts, i, j, t);
    ReadsParts(b, ts);
    SpliceRooted(ts, i, j, t);
    ReadingKept(b, b', ts);
    SpliceReading(b', ts, i, j, t);
  }

  /** A structure block of the blob changed at one place. */
  ghost predicate SplicedBlob(b: Blob, b': Blob, at: nat, oldlen: nat, newlen: nat) {
    && b.h.magic == FDT_MAGIC && StructOk(b) && StringsOk(b) && Ordered(b.h) && at + oldlen <= b.h.sizeStruct
    && b'.h == Grown(b.h, oldlen, newlen) && DataSize(b'.h) <= b'.h.totalsize
    && Spliced(b.mem, b'.mem, b.h.offStruct + at, oldlen, newlen, DataSize(b.h))
  }

  lemma StringsSpliced(b: Blob, b': Blob, at: nat, oldlen: nat, newlen: nat)
    requires SplicedBlob(b, b', at, oldlen, newlen)
    ensures StructOk(b') && StringsOk(b') && StringsOf(b') == StringsOf(b)
  {
    FdtStrings(b);
    FdtStrings(b');
    hide StringsOf;
    var base, size := b.h.offStruct, DataSize(b.h);
    TailMoved(b.mem, b'.mem, base + at, oldlen, newlen, size, b.h.offStrings, size);
    hide Spliced;
  }

  lemma StructSpliced(b: Blob, b': Blob, at: nat, oldlen: nat, newlen: nat)
    requires SplicedBlob(b, b', at, oldlen, newlen) && StructOk(b')
    ensures at <= b'.h.sizeStruct && at + newlen <= b'.h.sizeStruct
    ensures StructOf(b')[..at] == StructOf(b)[..at] && StructOf(b')[at + newlen..] == StructOf(b)[at + oldlen..]
  {
    hide StringsOk;
    hide Ordered;
    var base, n, n', size := b.h.offStruct, b.h.sizeStruct, b'.h.sizeStruct, DataSize(b.h);
    FrontSpliced(b.mem, b'.mem, base, n, n', at, oldlen, newlen, size);
    BackSpliced(b.mem, b'.mem, base, n, n', at, oldlen, newlen, size) by { InData(b); }
    hide Spliced;
  }

  lemma InData(b: Blob)
    requires Ordered(b.h)
    ensures b.h.offStruct + b.h.sizeStruct <= DataSize(b.h)
  {
  }

  lemma FrontSpliced(m: seq<Byte>, m': seq<Byte>, base: nat, n: nat, n': nat, at: nat, oldlen: nat, newlen: nat,
                     size: nat)
    requires Spliced(m, m', base + at, oldlen, newlen, size) && at <= n && base + n <= |m| && at <= n'
             && base + n' <= |m|
    ensures m'[base..base + n'][..at] == m[base..base + n][..at]
  {
    HeadKept(m, m', base + at, oldlen, newlen, size, base);
    hide Spliced;
    SubFront(m, base, n, at);
    SubFront(m', base, n', at);
  }

  lemma BackSpliced(m: seq<Byte>, m': seq<Byte>, base: nat, n: nat, n': nat, at: nat, oldlen: nat, newlen: nat,
                    size: nat)
    requires Spliced(m, m', base + at, oldlen, newlen, size) && at + oldlen <= n && base + n <= size
             && n' == n - oldlen + newlen
    ensures m'[base..base + n'][at + newlen..] == m[base..base + n][at + oldlen..]
  {
    TailMoved(m, m', base + at, oldlen, newlen, size, base + at + oldlen, base + n);
    hide Spliced;
    SubBack(m, base, n, at + oldlen);
    SubBack(m', base, n', at + newlen);
  }

  lemma TailMoved(m: seq<Byte>, m': seq<Byte>, at: nat, oldlen: nat, newlen: nat, size: nat, lo: nat, hi: nat)
    requires Spliced(m, m', at, oldlen, newlen, size) && at + oldlen <= lo <= hi <= size
    ensures m'[lo - oldlen + newlen..hi - oldlen + newlen] == m[lo..hi]
  {
    var p, q := m[at + oldlen..size], m'[at + newlen..size - oldlen + newlen];
    var r, r' := m[lo..hi], m'[lo - oldlen + newlen..hi - oldlen + newlen];
    forall y | 0 <= y < |r| ensures r'[y] == r[y] {
      var z := lo - at - oldlen + y;
      assert p[z] == m[lo + y] && q[z] == m'[lo - oldlen + newlen + y];
    }
  }

  lemma HeadKept(m: seq<Byte>, m': seq<Byte>, at: nat, oldlen: nat, newlen: nat, size: nat, lo: nat)
    requires Spliced(m, m', at, oldlen, newlen, size) && lo <= at
    ensures m'[lo..at] == m[lo..at]
  {
    SameSlice(m, m', at, lo, at);
  }

  lemma SubFront(m: seq<Byte>, lo: nat, n: nat, k: nat)
    requires lo + n <= |m| && k <= n
    ensures m[lo..lo + n][..k] == m[lo..lo + k]
  {
  }

  lemma SubBack(m: seq<Byte>, lo: nat, n: nat, k: nat)
    requires lo + n <= |m| && k <= n
    ensures m[lo..lo + n][k..] == m[lo + k..lo + n]
  {
  }

  lemma SpliceReading(b: Blob, ts: seq<Token>, i: nat, j: nat, t: Token)
    requires StringsOk(b) && i <= j <= |ts| && AllNamed(b, ts) && Named(b, t)
    ensures AllNamed(b, Splice(ts, i, j, t))
    ensures Reading(b, Splice(ts, i, j, t)) == Reading(b, ts)[..i] + [ItemOf(b, t)] + Reading(b, ts)[j..]
  {
    hide Named;
    hide ItemOf;
    var us := Splice(ts, i, j, t);
    forall m | 0 <= m < |us| ensures Named(b, us[m]) {
      SpliceToken(ts, i, j, t, m);
    }
  }

  /** A store inside the spliced bytes, or just before them, is part of a wider splice. */
  lemma SplicedWider(m: seq<Byte>, m1: seq<Byte>, m2: seq<Byte>, at: nat, oldlen: nat, newlen: nat, size: nat,
                     lo: nat, w: nat, bytes: seq<Byte>)
    requires Spliced(m, m1, at, oldlen, newlen, size) && Patched(m1, m2, w, bytes)
    requires lo <= at && lo <= w && w + |bytes| <= at + newlen
    ensures Spliced(m, m2, lo, oldlen + at - lo, newlen + at - lo, size)
  {
    SameSlice(m, m1, at, 0, lo);
    assert m[0..lo] == m[..lo] && m1[0..lo] == m1[..lo] && m2[0..lo] == m2[..lo];
    PatchKeeps(m1, m2, w, bytes, 0, lo);
    PatchKeeps(m1, m2, w, bytes, at + newlen, size - oldlen + newlen);
  }

  /** A property whose value was resized, with its new length and value stored. */
  lemma ResizedHolds(s: seq<Byte>, s1: seq<Byte>, s2: seq<Byte>, s3: seq<Byte>, off: nat, t: Token, value: seq<Byte>)
    requires Holds(s, off, t) && t.Prop? && |value| < U32 && off + 12 <= |s1| && s1[..off + 12] == s[..off + 12]
    requires Patched(s1, s2, off + 4, WordBytes(|value|)) && Patched(s2, s3, off + 12, value)
    ensures Holds(s3, off, Prop(t.nameoff, value))
  {
    hide Word;
    hide WordBytes;
    forall j | 0 <= j < off + 12 ensures s[j] == s1[j] { assert s[..off + 12][j] == s1[..off + 12][j]; }
    WordLocal(s, off, s3, off);
    WordLocal(s, off + 8, s3, off + 8);
    forall k | 0 <= k < 4 ensures WordBytes(|value|)[k] == s3[off + 4 + k] {
      assert s2[off + 4 + k] == s3[off + 4 + k];
    }
    SubWord(WordBytes(|value|), s3, off + 4);
  }

  class Editor {
    const buf: array<Byte>
    var h: Header
    ghost var ts: seq<Token>

    constructor (buf: array<Byte>, h: Header, ghost ts: seq<Token>)
      requires Editable(Blob(h, buf[..]), ts)
      ensures this.buf == buf && this.h == h && this.ts == ts && Ok()
    {
      this.buf, this.h, this.ts := buf, h, ts;
    }

    ghost function View(): Blob
      reads this, buf
    {
      Blob(h, buf[..])
    }

    ghost predicate Ok()
      reads this, buf
    {
      Editable(View(), ts)
    }

    /** fdt_splice_: oldlen bytes of the data become newlen, and what follows moves. */
    method SpliceData(p: nat, oldlen: nat, newlen: nat) returns (err: int)
      requires Ok() && p + oldlen <= DataSize(h) && newlen <= INT_MAX
      modifies buf
      ensures err == 0 <==> DataSize(h) - oldlen + newlen <= h.totalsize
      ensures err == 0 ==> Spliced(old(buf[..]), buf[..], p, oldlen, newlen, DataSize(h))
      ensures err != 0 ==> err != NOTFOUND && buf[..] == old(buf[..])
    {
      hide Editable;
      hide Spliced;
      hide Patched;
      InBuffer(View(), ts);
      hide StringsOk;
      var dsize := DataSize(h);
      if p + oldlen > dsize || (dsize + newlen) % U32 < oldlen {
        return BADOFFSET;
      }
      if dsize - oldlen + newlen > h.totalsize {
        return NOSPACE;
      }
      ghost var m := buf[..];
      MoveBytes(buf, p + newlen, p + oldlen, dsize - (p + oldlen));
      assert old(buf[p + oldlen..p + oldlen + (dsize - (p + oldlen))]) == m[p + oldlen..dsize];
      MoveSplices(m, buf[..], p, oldlen, newlen, dsize);
      err := 0;
    }

    /** fdt_splice_struct_: a splice in the structure block, with the header brought up to date. */
    method SpliceStruct(offset: nat, oldlen: nat, newlen: nat) returns (err: int)
      requires Ok() && offset + oldlen <= h.sizeStruct && newlen <= INT_MAX
      modifies buf, this`h
      ensures err == 0 <==> DataSize(old(h)) - oldlen + newlen <= old(h.totalsize)
      ensures err == 0 ==> SplicedBlob(old(View()), View(), offset, oldlen, newlen)
      ensures err != 0 ==> err != NOTFOUND && h == old(h) && buf[..] == old(buf[..])
    {
      hide Editable;
      hide Spliced;
      InBuffer(View(), ts);
      err := SpliceData(h.offStruct + offset, oldlen, newlen);
      if err == 0 {
        h := Grown(h, oldlen, newlen);
      }
    }

    /** fdt_resize_property_ and the copy of the value: property p's value replaced. */
    method ResizeProperty(offset: nat, value: seq<Byte>, ghost p: nat) returns (err: int)
      requires Ok() && TokenStart(ts, p, offset) && 0 < p && ts[p].Prop? && |value| < INT_MAX - 16
      modifies buf, this`h, this`ts
      ensures Ok() && err != NOTFOUND
      ensures err == 0 <==> DataSize(old(h)) - Size(old(ts)[p]) + Size(Prop(0, value)) <= old(h.totalsize)
      ensures err == 0 ==> old(NamedAt(View(), ts, p))
      ensures err == 0 ==> ReadSet(old(View()), old(ts), View(), ts, p, p + 1,
                                   Field(old(ItemOf(View(), ts[p])).name, value))
      ensures err != 0 ==> View() == old(View()) && ts == old(ts)
    {
      hide Offset;
      hide Editable;
      hide Word;
      hide Patched;
      hide ReadSet;
      hide SplicedBlob;
      ghost var b, t := View(), Prop(ts[p].nameoff, value);
      PropertyThere(b, ts, p);
      InBuffer(b, ts);
      AlignedSum(12, |value|);
      var oldlen := WordAt(Blob(h, buf[..]), offset + 4);
      err := SpliceStruct(offset + 12, Aligned(oldlen), Aligned(|value|));
      if err != 0 {
        return;
      }
      ghost var c := View();
      SplicedFits(b, c, offset + 12, Aligned(oldlen), Aligned(|value|));
      PutBytes(buf, h.offStruct + offset + 4, WordBytes(|value|));
      ghost var d := View();
      PutBytes(buf, h.offStruct + offset + 12, value);
      PropertyResized(b, c, d, View(), ts, p, value, offset, Aligned(oldlen), Aligned(|value|));
      ts := Splice(ts, p, p + 1, t);
    }

    /** fdt_find_add_string_: where the name stands in the strings block, put at its end if need be. */
    method FindAddString(name: seq<Byte>) returns (r: int, added: bool)
      requires Ok() && 0 !in name && |name| < INT_MAX
      modifies buf, this`h
      ensures if 0 <= r then NameReady(old(View()), View(), ts, name, r) else r == NOSPACE && View() == old(View())
      ensures 0 <= r <==> DataSize(old(h)) + NameRoom(old(View()), name) <= old(h.totalsize)
      ensures added ==> h.sizeStrings == old(h.sizeStrings) + |name| + 1 && NameRoom(old(View()), name) == |name| + 1
      ensures !added ==> View() == old(View()) && (0 <= r ==> NameRoom(old(View()), name) == 0)
    {
      hide Editable;
      hide NameAt;
      InBuffer(View(), ts);
      FdtStrings(View());
      ghost var b := View();
      var p := FindString(buf[h.offStrings..h.offStrings + h.sizeStrings], name);
      if 0 <= p {
        NameFound(b, ts, name, p);
        return p, false;
      }
      hide StringsOf;
      hide NameReady;
      var dsize, newlen := DataSize(h), |name| + 1;
      if dsize + newlen > h.totalsize {
        return NOSPACE, false;
      }
      PutBytes(buf, dsize, name + [0]);
      r, added := h.sizeStrings, true;
      h := h.(sizeStrings := h.sizeStrings + newlen);
      NamePut(b, View(), ts, name);
    }

    /** fdt_add_property_ and the copy of the value: a new first property of node k, or nothing read differently. */
    method InsertProperty(nodeoffset: int, name: seq<Byte>, value: seq<Byte>, ghost k: nat) returns (err: int)
      requires Ok() && NodeAt(ts, k, nodeoffset) && 0 !in name && |name| < INT_MAX && |value| < INT_MAX - 16
      modifies buf, this`h, this`ts
      ensures Ok()
      ensures err == 0 ==> ReadSet(old(View()), old(ts), View(), ts, k + 1, k + 1, Field(name, value))
      ensures err != 0 ==> ts == old(ts) && ReadSame(old(View()), View(), ts)
      ensures err == 0 <==>
              DataSize(old(h)) + NameRoom(old(View()), name) + Size(Prop(0, value)) <= old(h.totalsize)
    {
      hide Offset;
      hide Editable;
      hide NameReady;
      hide NameRoom;
      hide SplicedBlob;
      hide Patched;
      hide TokenBytes;
      hide Word;
      hide ReadSet;
      hide ReadSame;
      hide NextTag;
      ghost var b := View();
      InBuffer(b, ts);
      NodeThere(b, ts, k, nodeoffset);
      var next := CheckNodeOffset(Blob(h, buf[..]), nodeoffset);
      var r, added := FindAddString(name);
      if r < 0 {
        SameReading(b, ts);
        return r;
      }
      ghost var c, t := View(), Prop(r, value);
      NameReadyParts(b, c, ts, name, r);
      SizeOfProp(r, value);
      hide Aligned;
      err := SpliceStruct(next, 0, 12 + Aligned(|value|));
      if err != 0 {
        if added {
          h := h.(sizeStrings := h.sizeStrings - (|name| + 1));
        }
        NameTakenBack(b, c, View(), ts, name, r);
        return;
      }
      ghost var d := View();
      SplicedFits(c, d, next, 0, 12 + Aligned(|value|));
      PutProperty(buf, h.offStruct + next, r, value);
      PropertyInserted(b, c, d, View(), ts, k, name, value, r, next, 12 + Aligned(|value|));
      ts := Splice(ts, k + 1, k + 1, t);
    }

    /** fdt_setprop on node k: the field set and nothing else read differently; or, on failure, nothing at all. It
        fails exactly if there is no node's tag at the offset or the new field, with its name, does not fit. */
    method SetProp(nodeoffset: int, name: seq<Byte>, value: seq<Byte>, ghost k: nat) returns (err: int, ghost p: nat)
      requires Ok() && (NodeAt(ts, k, nodeoffset) || Refused(View(), nodeoffset))
      requires 0 !in name && |name| < INT_MAX && |value| < INT_MAX - 16
      modifies buf, this`h, this`ts
      ensures Ok()
      ensures err == 0 <==>
              && !old(Refused(View(), nodeoffset))
              && DataSize(old(h)) + old(Extra(View(), ts, k, name, value, p)) <= old(h.totalsize)
      ensures old(Refused(View(), nodeoffset)) ==> err == BADOFFSET
      ensures err == 0 ==> FieldSet(old(View()), old(ts), View(), ts, k, name, value, p)
      ensures err != 0 ==> ts == old(ts) && ReadSame(old(View()), View(), ts)
      ensures forall rsv :: RsvReads(old(View()), rsv) <==> RsvReads(View(), rsv)
      ensures RsvEnded(old(View())) ==> RsvEnded(View()) && (Accepted(old(View())) <==> Accepted(View()))
    {
      hide Offset;
      hide Editable;
      hide ReadSet;
      hide ReadSame;
      hide Reading;
      hide FieldAt;
      hide FieldSet;
      hide Size;
      hide RsvReads;
      hide RsvEnded;
      hide Accepted;
      hide NameRoom;
      hide Extra;
      hide NextTag;
      hide NoField;
      InBuffer(View(), ts);
      ghost var b, us := View(), ts;
      Probed(b, ts);
      err, h := RwProbe(h);
      VersionSet(b, View(), ts);
      ghost var c := View();
      SameStrings(b, c, ts);
      EditableNamed(c, ts);
      var offset;
      offset, p := GetProperty(Blob(h, buf[..]), nodeoffset, name, ts, k);
      ExtraIs(b, c, ts, k, name, value, p);
      if 0 <= offset {
        FieldInside(c, ts, k, name, p);
        err := ResizeProperty(offset, value, p);
        if err == 0 {
          FieldReplaced(b, c, us, View(), ts, k, name, value, p);
          SetKeepsMap(b, us, View(), ts, k, name, value, p);
        } else {
          SameKeepsMap(b, View(), ts);
        }
      } else if offset != NOTFOUND {
        SameKeepsMap(b, View(), ts);
        return offset, p;
      } else {
        err := InsertProperty(nodeoffset, name, value, k);
        if err == 0 {
          FieldInserted(b, c, us, View(), ts, k, name, value, p);
          SetKeepsMap(b, us, View(), ts, k, name, value, p);
        } else {
          SameThrough(b, c, View(), ts);
          SameKeepsMap(b, View(), ts);
        }
      }
    }
  }

  lemma Probed(b: Blob, ts: seq<Token>)
    requires Editable(b, ts)
    ensures Words(b.h) && 0 <= RoProbe(b.h) && 17 <= b.h.version && Ordered(b.h)
  {
  }

  lemma InBuffer(b: Blob, ts: seq<Token>)
    requires Editable(b, ts)
    ensures StructOk(b) && StringsOk(b) && Ordered(b.h) && b.h.totalsize < INT_MAX && b.h.magic == FDT_MAGIC
  {
  }

  lemma SplicedFits(b: Blob, c: Blob, at: nat, oldlen: nat, newlen: nat)
    requires SplicedBlob(b, c, at, oldlen, newlen)
    ensures c.h.offStruct + at + newlen <= |c.mem| && c.h.offStruct == b.h.offStruct
  {
  }

  lemma MoveSplices(m: seq<Byte>, m': seq<Byte>, p: nat, oldlen: nat, newlen: nat, size: nat)
    requires p + oldlen <= size <= |m| && size - oldlen + newlen <= |m|
    requires Patched(m, m', p + newlen, m[p + oldlen..size])
    ensures Spliced(m, m', p, oldlen, newlen, size)
  {
    var tail := m[p + oldlen..size];
    assert forall j :: 0 <= j < p ==> m'[j] == m[j];
    var q := m'[p + newlen..size - oldlen + newlen];
    forall j | 0 <= j < |tail| ensures q[j] == tail[j] { assert q[j] == m'[p + newlen + j]; }
  }

  /** The reading after an edit: one field in place of tokens i to j, everything else and the reserve map as before. */
  ghost predicate ReadSet(b: Blob, ts: seq<Token>, b': Blob, ts': seq<Token>, i: nat, j: nat, item: Item) {
    && StringsOk(b) && AllNamed(b, ts) && StringsOk(b') && AllNamed(b', ts') && i <= j <= |ts|
    && Reading(b', ts') == Reading(b, ts)[..i] + [item] + Reading(b, ts)[j..]
    && SameRsv(b, b')
  }

  /** The bytes before the structure block, reserve map and all, are as before. */
  ghost predicate SameRsv(b: Blob, b': Blob) {
    && b'.h.offRsvmap == b.h.offRsvmap && b'.h.offStruct == b.h.offStruct <= |b.mem| == |b'.mem|
    && b'.mem[..b.h.offStruct] == b.mem[..b.h.offStruct]
  }

  lemma PropertyThere(b: Blob, ts: seq<Token>, p: nat)
    requires Editable(b, ts) && p < |ts| && ts[p].Prop?
    ensures Offset(ts, p) + Size(ts[p]) == Offset(ts, p + 1) && Offset(ts, p + 1) <= b.h.sizeStruct
    ensures Size(ts[p]) == 12 + Aligned(|ts[p].value|)
    ensures WordAt(b, Offset(ts, p) + 4) == |ts[p].value|
  {
    hide Word;
    hide Editable;
    hide Offset;
    hide StructOf;
    TokenHolds(b, ts, p);
    TokenHolds(b, ts, |ts| - 1);
    OffsetGrows(ts, p, |ts| - 1);
    OffsetStep(ts, p);
    if p + 1 < |ts| - 1 { OffsetGrows(ts, p + 1, |ts| - 1); }
    WordInBlock(b, Offset(ts, p) + 4);
    AlignedSum(12, |ts[p].value|);
  }

  lemma TokenHolds(b: Blob, ts: seq<Token>, p: nat)
    requires Editable(b, ts) && p < |ts|
    ensures StructOk(b) && Holds(StructOf(b), Offset(ts, p), ts[p]) && Offset(ts, p) + Used(ts[p]) <= b.h.sizeStruct
    ensures ts[p] == End <==> p == |ts| - 1
  {
    LastIsEnd(ts);
    hide Rooted;
    hide AllNamed;
    hide Offset;
  }

  /** The three stores of a resize, as one splice. */
  lemma ResizeSplices(m: seq<Byte>, m1: seq<Byte>, m2: seq<Byte>, m3: seq<Byte>, a: nat, oldlen: nat, newlen: nat,
                      size: nat,
                      word: seq<Byte>, value: seq<Byte>)
    requires Spliced(m, m1, a + 12, oldlen, newlen, size) && |word| == 4 && |value| <= newlen
    requires Patched(m1, m2, a + 4, word) && Patched(m2, m3, a + 12, value)
    ensures Spliced(m, m3, a, 12 + oldlen, 12 + newlen, size)
  {
    hide Spliced;
    hide Patched;
    SplicedWider(m, m1, m2, a + 12, oldlen, newlen, size, a, a + 4, word);
    SplicedWider(m, m2, m3, a, 12 + oldlen, 12 + newlen, size, a, a + 12, value);
  }

  lemma ResizedParts(b: Blob, c: Blob, d: Blob, e: Blob, ts: seq<Token>, p: nat, value: seq<Byte>,
                     off: nat, oldlen: nat, newlen: nat)
    requires Editable(b, ts) && 0 < p < |ts| && ts[p].Prop? && |value| < U32 && off == Offset(ts, p)
    requires oldlen == Size(ts[p]) - 12 && newlen == Size(Prop(0, value)) - 12
    requires SplicedBlob(b, c, off + 12, oldlen, newlen) && d.h == c.h == e.h
    requires Patched(c.mem, d.mem, b.h.offStruct + off + 4, WordBytes(|value|))
    requires Patched(d.mem, e.mem, b.h.offStruct + off + 12, value)
    ensures var t := Prop(ts[p].nameoff, value);
            && CanSplice(ts, p, p + 1, t) && StringsOk(b) && Named(b, t) && StructOk(e) && Holds(StructOf(e), off, t)
    ensures SplicedBlob(b, e, off, 12 + oldlen, 12 + newlen)
    ensures Spliced(b.mem, e.mem, b.h.offStruct + off, 12 + oldlen, 12 + newlen, DataSize(b.h))
    ensures e.h.offRsvmap == b.h.offRsvmap && e.h.offStruct == b.h.offStruct && off + 12 + oldlen <= b.h.sizeStruct
  {
    hide WordBytes;
    hide Editable;
    hide Offset;
    hide Patched;
    hide Spliced;
    hide Holds;
    hide Size;
    TokenHolds(b, ts, p);
    SpliceInside(b, ts, p, Prop(ts[p].nameoff, value));
    hide CanSplice;
    hide Named;
    hide SplicedBlob;
    ResizedInPlace(b, c, d, e, off, oldlen, newlen, ts[p], value) by { SplicedHeader(b, c, off + 12, oldlen, newlen); }
    ResizedBlob(b, c, d, e, off, oldlen, newlen, value);
  }

  lemma PropertyResized(b: Blob, c: Blob, d: Blob, e: Blob, ts: seq<Token>, p: nat, value: seq<Byte>,
                        off: nat, oldlen: nat, newlen: nat)
    requires Editable(b, ts) && 0 < p < |ts| && ts[p].Prop? && |value| < U32 && off == Offset(ts, p)
    requires oldlen == Size(ts[p]) - 12 && newlen == Size(Prop(0, value)) - 12
    requires SplicedBlob(b, c, off + 12, oldlen, newlen) && d.h == c.h == e.h
    requires Patched(c.mem, d.mem, b.h.offStruct + off + 4, WordBytes(|value|))
    requires Patched(d.mem, e.mem, b.h.offStruct + off + 12, value)
    ensures Editable(e, Splice(ts, p, p + 1, Prop(ts[p].nameoff, value)))
    ensures NamedAt(b, ts, p)
    ensures ReadSet(b, ts, e, Splice(ts, p, p + 1, Prop(ts[p].nameoff, value)), p, p + 1,
                    Field(ItemOf(b, ts[p]).name, value))
  {
    hide WordBytes;
    hide Editable;
    hide Offset;
    hide Patched;
    hide Spliced;
    hide Holds;
    hide Size;
    hide CanSplice;
    hide Named;
    hide SplicedBlob;
    var t := Prop(ts[p].nameoff, value);
    ResizedParts(b, c, d, e, ts, p, value, off, oldlen, newlen);
    OffsetStep(ts, p);
    SizeOfProp(ts[p].nameoff, value);
    PropertySpliced(b, e, ts, p, p + 1, t, off, off + 12 + oldlen, 12 + newlen);
    SetInPlace(b, e, ts, p, t, b.h.offStruct + off, 12 + oldlen, 12 + newlen);
  }

  lemma SplicedHeader(b: Blob, c: Blob, at: nat, oldlen: nat, newlen: nat)
    requires SplicedBlob(b, c, at, oldlen, newlen)
    ensures c.h.offStruct == b.h.offStruct
  {
  }

  lemma ResizedBlob(b: Blob, c: Blob, d: Blob, e: Blob, off: nat, oldlen: nat, newlen: nat, value: seq<Byte>)
    requires SplicedBlob(b, c, off + 12, oldlen, newlen) && e.h == c.h && |value| < U32 && |value| <= newlen
    requires Patched(c.mem, d.mem, b.h.offStruct + off + 4, WordBytes(|value|))
    requires Patched(d.mem, e.mem, b.h.offStruct + off + 12, value)
    ensures SplicedBlob(b, e, off, 12 + oldlen, 12 + newlen)
    ensures Spliced(b.mem, e.mem, b.h.offStruct + off, 12 + oldlen, 12 + newlen, DataSize(b.h))
    ensures e.h.offRsvmap == b.h.offRsvmap && e.h.offStruct == b.h.offStruct && off + 12 + oldlen <= b.h.sizeStruct
  {
    hide WordBytes;
    hide Patched;
    hide Spliced;
    ResizeSplices(b.mem, c.mem, d.mem, e.mem, b.h.offStruct + off, oldlen, newlen, DataSize(b.h), WordBytes(|value|),
                  value);
  }

  lemma SizeOfProp(nameoff: nat, value: seq<Byte>)
    ensures Size(Prop(nameoff, value)) == Size(Prop(0, value)) == 12 + Aligned(|value|)
  {
    AlignedSum(12, |value|);
  }

  lemma SpliceInside(b: Blob, ts: seq<Token>, p: nat, t: Token)
    requires Editable(b, ts) && 0 < p < |ts| && ts[p].Prop? && t.Prop? && t.nameoff == ts[p].nameoff
    ensures CanSplice(ts, p, p + 1, t) && StringsOk(b) && Named(b, t)
  {
    hide NameAt;
    NotRoot(ts, p);
    assert Named(b, ts[p]);
  }

  lemma ResizedInPlace(b: Blob, c: Blob, d: Blob, e: Blob, off: nat, oldlen: nat, newlen: nat, t: Token,
                       value: seq<Byte>)
    requires StructOk(b) && Holds(StructOf(b), off, t) && t.Prop? && |value| < U32 && |value| <= newlen
    requires SplicedBlob(b, c, off + 12, oldlen, newlen) && d.h == c.h == e.h
    requires Patched(c.mem, d.mem, c.h.offStruct + (off + 4), WordBytes(|value|))
    requires Patched(d.mem, e.mem, c.h.offStruct + (off + 12), value)
    ensures StructOk(e) && Holds(StructOf(e), off, Prop(t.nameoff, value))
  {
    hide Holds;
    hide WordBytes;
    hide StringsOf;
    hide Patched;
    hide Spliced;
    StringsSpliced(b, c, off + 12, oldlen, newlen);
    StructSpliced(b, c, off + 12, oldlen, newlen);
    hide SplicedBlob;
    hide StringsOk;
    PatchedStruct(c, d, off + 4, WordBytes(|value|));
    PatchedStruct(d, e, off + 12, value);
    hide StructOf;
    ResizedHolds(StructOf(b), StructOf(c), StructOf(d), StructOf(e), off, t, value);
  }

  lemma PatchedStruct(c: Blob, d: Blob, at: nat, bytes: seq<Byte>)
    requires StructOk(c) && d.h == c.h && at + |bytes| <= c.h.sizeStruct
    requires Patched(c.mem, d.mem, c.h.offStruct + at, bytes)
    ensures StructOk(d) && Patched(StructOf(c), StructOf(d), at, bytes)
  {
    PatchedLength(c.mem, d.mem, c.h.offStruct + at, bytes);
    PatchedSlice(c.mem, d.mem, c.h.offStruct + at, bytes, c.h.offStruct, c.h.offStruct + c.h.sizeStruct);
  }

  lemma NotRoot(ts: seq<Token>, p: nat)
    requires Rooted(ts) && 0 < p < |ts| && ts[p].Prop?
    ensures 1 <= Depth(ts, p) && p + 1 < |ts|
  {
  }

  lemma SetInPlace(b: Blob, e: Blob, ts: seq<Token>, p: nat, t: Token, at: nat, oldlen: nat, newlen: nat)
    requires Editable(b, ts) && p < |ts| && ts[p].Prop? && t.Prop? && t.nameoff == ts[p].nameoff && Named(b, t)
    requires Editable(e, Splice(ts, p, p + 1, t))
    requires Reading(e, Splice(ts, p, p + 1, t)) == Reading(b, ts)[..p] + [ItemOf(b, t)] + Reading(b, ts)[p + 1..]
    requires e.h.offRsvmap == b.h.offRsvmap && e.h.offStruct == b.h.offStruct
    requires b.h.offStruct <= at && Spliced(b.mem, e.mem, at, oldlen, newlen, DataSize(b.h))
    ensures NamedAt(b, ts, p)
    ensures ReadSet(b, ts, e, Splice(ts, p, p + 1, t), p, p + 1, Field(ItemOf(b, ts[p]).name, t.value))
  {
    hide Laid;
    hide Rooted;
    hide NameAt;
    hide Reading;
    LowBytes(b.mem, e.mem, at, b.h.offStruct);
    assert Named(b, ts[p]);
  }

  lemma LowBytes(m: seq<Byte>, m': seq<Byte>, at: nat, n: nat)
    requires n <= at <= |m| && at <= |m'| && m'[..at] == m[..at]
    ensures m'[..n] == m[..n]
  {
    SameSlice(m, m', at, 0, n);
  }

  /** The name stands at r of the strings block, and nothing else reads differently. */
  /** The room a name takes in the strings block: none if it is there already. */
  ghost function NameRoom(b: Blob, name: seq<Byte>): (n: nat)
    requires StringsOk(b)
    ensures n == 0 || n == |name| + 1
  {
    if exists i: nat :: NameAt(StringsOf(b), i) == Some(name) then 0 else |name| + 1
  }

  ghost predicate NameReady(b: Blob, b': Blob, ts: seq<Token>, name: seq<Byte>, r: nat) {
    && Editable(b, ts) && Editable(b', ts) && Reading(b', ts) == Reading(b, ts)
    && r <= INT_MAX && NameAt(StringsOf(b'), r) == Some(name)
    && b'.h == b.h.(sizeStrings := b'.h.sizeStrings) && |b'.mem| == |b.mem|
    && b'.mem[..DataSize(b.h)] == b.mem[..DataSize(b.h)]
  }

  lemma NameFound(b: Blob, ts: seq<Token>, name: seq<Byte>, p: nat)
    requires Editable(b, ts) && NameAt(StringsOf(b), p) == Some(name)
    ensures NameReady(b, b, ts, name, p)
  {
    hide Laid;
    hide Rooted;
    hide Reading;
  }

  lemma NamePut(b: Blob, b': Blob, ts: seq<Token>, name: seq<Byte>)
    requires Editable(b, ts) && 0 !in name && b'.h == b.h.(sizeStrings := b.h.sizeStrings + |name| + 1)
    requires DataSize(b'.h) <= b.h.totalsize && Patched(b.mem, b'.mem, DataSize(b.h), name + [0])
    ensures NameReady(b, b', ts, name, b.h.sizeStrings)
  {
    hide NameAt;
    hide Editable;
    hide Reading;
    hide Patched;
    InBuffer(b, ts);
    PatchedLength(b.mem, b'.mem, DataSize(b.h), name + [0]);
    PatchKeeps(b.mem, b'.mem, DataSize(b.h), name + [0], 0, DataSize(b.h));
    assert b.mem[0..DataSize(b.h)] == b.mem[..DataSize(b.h)] && b'.mem[0..DataSize(b.h)] == b'.mem[..DataSize(b.h)];
    PatchedThere(b.mem, b'.mem, DataSize(b.h), name + [0]);
    hide StructOk;
    hide StringsOk;
    StringAdded(b, b', ts, name);
  }

  lemma PatchedThere(m: seq<Byte>, m': seq<Byte>, at: nat, bytes: seq<Byte>)
    requires Patched(m, m', at, bytes)
    ensures m'[at..at + |bytes|] == bytes
  {
  }

  /** Everything reads as before. */
  ghost predicate ReadSame(b: Blob, b': Blob, ts: seq<Token>) {
    StringsOk(b) && AllNamed(b, ts) && StringsOk(b') && AllNamed(b', ts) && Reading(b', ts) == Reading(b, ts)
      && SameRsv(b, b')
  }

  /** How much longer the data gets: a field p that is there is given up for the new one, and otherwise there must be
      room for the name as well. */
  ghost function Extra(b: Blob, ts: seq<Token>, k: nat, name: seq<Byte>, value: seq<Byte>, p: nat): int
    requires StringsOk(b) && AllNamed(b, ts)
  {
    if p < |ts| && FieldAt(Reading(b, ts), k, name, p) then Size(Prop(0, value)) - Size(ts[p])
    else Size(Prop(0, value)) + NameRoom(b, name)
  }

  /** The field is set, and everything else reads as before. */
  ghost predicate FieldSet(b: Blob, ts: seq<Token>, b': Blob, ts': seq<Token>, k: nat, name: seq<Byte>,
                           value: seq<Byte>, p: nat) {
    && StringsOk(b) && AllNamed(b, ts) && StringsOk(b') && AllNamed(b', ts')
    && IsSet(Reading(b, ts), k, name, value, p, Reading(b', ts')) && SameRsv(b, b')
  }

  lemma SameReading(b: Blob, ts: seq<Token>)
    requires Editable(b, ts)
    ensures ReadSame(b, b, ts)
  {
    hide Laid;
    hide Rooted;
    hide Reading;
  }

  lemma NodeThere(b: Blob, ts: seq<Token>, k: nat, offset: int)
    requires Editable(b, ts) && NodeAt(ts, k, offset)
    ensures StructOk(b) && NextTag(StructOf(b), offset) == Step(1, Offset(ts, k + 1)) && 0 <= offset <= INT_MAX
            && offset % 4 == 0
    ensures k + 1 < |ts| && 1 <= Depth(ts, k + 1) && Offset(ts, k + 1) <= b.h.sizeStruct
  {
    ReadAt(b, ts, k);
    ReadsParts(b, ts);
    NotLast(ts, k);
    ReadAt(b, ts, k + 1);
  }

  lemma NameReadyParts(b: Blob, c: Blob, ts: seq<Token>, name: seq<Byte>, r: nat)
    requires NameReady(b, c, ts, name, r)
    ensures Editable(c, ts) && c.h.offStruct == b.h.offStruct && c.h.sizeStruct == b.h.sizeStruct && r <= INT_MAX
    ensures c.h.totalsize == b.h.totalsize && |c.mem| == |b.mem| && c.h == b.h.(sizeStrings := c.h.sizeStrings)
  {
    hide Editable;
  }

  lemma NameTakenBack(b: Blob, c: Blob, d: Blob, ts: seq<Token>, name: seq<Byte>, r: nat)
    requires NameReady(b, c, ts, name, r) && d.h == b.h && d.mem == c.mem
    ensures Editable(d, ts) && ReadSame(b, d, ts)
  {
    hide Laid;
    hide Rooted;
    hide NameAt;
    hide AllNamed;
    hide Reading;
    LowBytes(b.mem, d.mem, DataSize(b.h), b.h.offStruct);
    SameData(b, d, ts);
  }

  lemma PropertyInserted(b: Blob, c: Blob, d: Blob, e: Blob, ts: seq<Token>, k: nat, name: seq<Byte>, value: seq<Byte>,
                         r: nat, next: nat, n: nat)
    requires NameReady(b, c, ts, name, r) && IsNode(ts, k) && k + 1 < |ts| && 1 <= Depth(ts, k + 1)
    requires next == Offset(ts, k + 1) <= c.h.sizeStruct && n == Size(Prop(r, value)) && |value| < U32 && r < U32
    requires SplicedBlob(c, d, next, 0, n) && e.h == d.h
    requires Patched(d.mem, e.mem, d.h.offStruct + next, TokenBytes(Prop(r, value)))
    ensures Editable(e, Splice(ts, k + 1, k + 1, Prop(r, value)))
    ensures ReadSet(b, ts, e, Splice(ts, k + 1, k + 1, Prop(r, value)), k + 1, k + 1, Field(name, value))
  {
    hide Editable;
    hide Offset;
    hide Patched;
    hide Spliced;
    hide Holds;
    hide TokenBytes;
    hide Depth;
    hide Reading;
    hide NameAt;
    var t := Prop(r, value);
    InBuffer(b, ts);
    InBuffer(c, ts);
    StringsSpliced(c, d, next, 0, n);
    InsertedInPlace(d, e, next, t);
    SplicedWider(c.mem, d.mem, e.mem, c.h.offStruct + next, 0, n, DataSize(c.h), c.h.offStruct + next,
                 c.h.offStruct + next,
                 TokenBytes(t));
    PropertySpliced(c, e, ts, k + 1, k + 1, t, next, next, n);
    InsertLow(b, c, e, next, n);
    EditableNamed(b, ts);
    EditableNamed(e, Splice(ts, k + 1, k + 1, t));
  }

  lemma EditableNamed(b: Blob, ts: seq<Token>)
    requires Editable(b, ts)
    ensures StringsOk(b) && AllNamed(b, ts)
  {
  }

  lemma InsertedInPlace(d: Blob, e: Blob, next: nat, t: Token)
    requires StructOk(d) && e.h == d.h && t.Prop? && t.nameoff < U32 && |t.value| < U32
             && next + Used(t) <= d.h.sizeStruct
    requires Patched(d.mem, e.mem, d.h.offStruct + next, TokenBytes(t))
    ensures StructOk(e) && Holds(StructOf(e), next, t)
  {
    hide TokenBytes;
    hide Holds;
    PatchedLength(d.mem, e.mem, d.h.offStruct + next, TokenBytes(t));
    hide Patched;
    PatchedHolds(d.mem, e.mem, d.h.offStruct, d.h.sizeStruct, next, t);
  }

  lemma InsertLow(b: Blob, c: Blob, e: Blob, next: nat, n: nat)
    requires Ordered(b.h) && b.h.totalsize <= |b.mem| && c.h == b.h.(sizeStrings := c.h.sizeStrings)
             && |c.mem| == |b.mem|
    requires c.mem[..DataSize(b.h)] == b.mem[..DataSize(b.h)] && SplicedBlob(c, e, next, 0, n)
    ensures SameRsv(b, e)
  {
    LowBytes(b.mem, c.mem, DataSize(b.h), b.h.offStruct);
    LowBytes(c.mem, e.mem, b.h.offStruct + next, b.h.offStruct);
  }

  lemma VersionSet(b: Blob, c: Blob, ts: seq<Token>)
    requires Editable(b, ts) && c.mem == b.mem && c.h == b.h.(version := 17)
    ensures Editable(c, ts)
  {
    hide Laid;
    hide Rooted;
    hide NameAt;
    assert StructOf(c) == StructOf(b);
    assert StringsOf(c) == StringsOf(b);
    ReadingKept(b, c, ts);
  }

  lemma SameStrings(b: Blob, c: Blob, ts: seq<Token>)
    requires Editable(b, ts) && Editable(c, ts) && c.mem == b.mem && c.h == b.h.(version := c.h.version)
    ensures Reading(c, ts) == Reading(b, ts) && ReadSame(b, c, ts) && StringsOf(c) == StringsOf(b)
    ensures StructOf(c) == StructOf(b)
  {
    hide Laid;
    hide Rooted;
    hide NameAt;
    hide Reading;
    assert StringsOf(c) == StringsOf(b);
    assert StructOf(c) == StructOf(b);
    ReadingKept(b, c, ts);
  }

  lemma ExtraIs(b: Blob, c: Blob, ts: seq<Token>, k: nat, name: seq<Byte>, value: seq<Byte>, p: nat)
    requires ReadSame(b, c, ts) && StringsOf(c) == StringsOf(b)
    ensures FieldAt(Reading(c, ts), k, name, p) ==>
              p < |ts| && Extra(b, ts, k, name, value, p) == Size(Prop(0, value)) - Size(ts[p])
    ensures NoField(Reading(c, ts), k, name) ==>
              Extra(b, ts, k, name, value, p) == Size(Prop(0, value)) + NameRoom(c, name)
  {
    hide Reading;
    hide Size;
    hide NameAt;
    hide AllNamed;
  }

  lemma FieldInside(c: Blob, ts: seq<Token>, k: nat, name: seq<Byte>, p: nat)
    requires StringsOk(c) && AllNamed(c, ts) && FieldAt(Reading(c, ts), k, name, p)
    ensures k < p < |ts| && NamedAt(c, ts, p) && ItemOf(c, ts[p]).name == name
  {
    hide NameAt;
    assert Reading(c, ts)[p] == ItemOf(c, ts[p]);
  }

  lemma FieldReplaced(b: Blob, c: Blob, us: seq<Token>, e: Blob, ts: seq<Token>, k: nat, name: seq<Byte>,
                      value: seq<Byte>, p: nat)
    requires ReadSame(b, c, us) && FieldAt(Reading(c, us), k, name, p)
    requires ReadSet(c, us, e, ts, p, p + 1, Field(name, value))
    ensures FieldSet(b, us, e, ts, k, name, value, p)
  {
    var items, f := Reading(b, us), Field(name, value);
    hide Reading;
    assert items[p := f] == items[..p] + [f] + items[p + 1..];
  }

  lemma FieldInserted(b: Blob, c: Blob, us: seq<Token>, e: Blob, ts: seq<Token>, k: nat, name: seq<Byte>,
                      value: seq<Byte>, p: nat)
    requires ReadSame(b, c, us) && NoField(Reading(c, us), k, name) && k < |us|
    requires ReadSet(c, us, e, ts, k + 1, k + 1, Field(name, value))
    ensures FieldSet(b, us, e, ts, k, name, value, p)
  {
    hide Reading;
    hide FieldAt;
  }

  lemma SameThrough(b: Blob, c: Blob, e: Blob, ts: seq<Token>)
    requires ReadSame(b, c, ts) && ReadSame(c, e, ts)
    ensures ReadSame(b, e, ts)
  {
    hide Reading;
  }

  // ---------- the editor and the full check ----------

  /** An accepted blob whose first tag opens the root and whose blocks are in order can be edited. */
  lemma AcceptedEditable(b: Blob, ts: seq<Token>)
    requires HeaderOk(b.h) && b.h.totalsize <= |b.mem| && Complete(b, ts) && ts[0].BeginNode? && Ordered(b.h)
    ensures Editable(b, ts)
  {
    hide Reads;
    hide Named;
    AcceptedReads(b, ts);
    forall i | 0 <= i < |ts| ensures Named(b, ts[i]) { CompleteNamed(b, ts, i); }
    hide Complete;
  }

  lemma CompleteNamed(b: Blob, ts: seq<Token>, i: nat)
    requires StructOk(b) && StringsOk(b) && b.h.magic == FDT_MAGIC && Complete(b, ts) && i < |ts|
    ensures Named(b, ts[i])
  {
    hide Laid;
    hide Depth;
    hide NameAt;
    var opening := ts[..|ts| - 1];
    if i < |opening| {
      assert opening[i] == ts[i];
      assert MayFollow(b, opening[..i], opening[i]);
    }
  }

  lemma EditableFollows(b: Blob, ts: seq<Token>, i: nat)
    requires Editable(b, ts) && 0 < i < |ts|
    ensures MayFollow(b, ts[..i], ts[i]) && (ts[i] == End <==> i == |ts| - 1)
  {
    hide NameAt;
    hide Laid;
    assert Named(b, ts[i]);
    DepthPrefix(ts[..i], ts, i);
  }

  lemma EditableFirst(b: Blob, ts: seq<Token>)
    requires Editable(b, ts)
    ensures 3 <= |ts| && ts[0].BeginNode? && (MayFollow(b, [], ts[0]) <==> ts[0].name == [])
  {
    hide Laid;
  }

  /** And a blob that can be edited, as every edit leaves it, has a structure block the full check accepts exactly
      if its root is unnamed. */
  lemma EditableComplete(b: Blob, ts: seq<Token>)
    requires Editable(b, ts)
    ensures StructOk(b) && ts[0].BeginNode? && (Complete(b, ts) <==> ts[0].name == [])
  {
    hide MayFollow;
    hide AllNamed;
    hide Rooted;
    hide Laid;
    var n := |ts| - 1;
    EditableFirst(b, ts);
    EditableFollows(b, ts, n);
    PrefixLaid(StructOf(b), ts, n);
    var opening := ts[..n];
    assert opening[..0] == [] && opening[0] == ts[0];
    forall i | 0 < i < n ensures opening[i] != End && MayFollow(b, opening[..i], opening[i]) {
      assert opening[..i] == ts[..i];
      EditableFollows(b, ts, i);
    }
  }

  /** So the full check accepts it exactly if, besides, the reserve map ends somewhere in the blob. */
  lemma EditableAccepted(b: Blob, ts: seq<Token>)
    requires Editable(b, ts)
    ensures ts[0].BeginNode? && (Accepted(b) <==> ts[0].name == [] && exists n: nat :: EndsRsv(b, n))
  {
    hide EndsRsv;
    EditableComplete(b, ts);
    EditableHeader(b, ts);
    if us :| Complete(b, us) {
      SameStart(b, ts, us);
    }
  }

  lemma EditableHeader(b: Blob, ts: seq<Token>)
    requires Editable(b, ts)
    ensures HeaderOk(b.h) && b.h.totalsize <= |b.mem| && StructOk(b) && StringsOk(b)
  {
  }

  lemma SameStart(b: Blob, ts: seq<Token>, us: seq<Token>)
    requires Editable(b, ts) && StructOk(b) && Complete(b, us)
    ensures ts[0].BeginNode? && ts[0].name == []
  {
    hide Holds;
    OneReading(StructOf(b), ts, us, 1);
    assert us[0] == us[..1][0] == ts[..1][0] == ts[0];
    var opening := us[..|us| - 1];
    assert opening[0] == us[0] && opening[..0] == [] && MayFollow(b, opening[..0], opening[0]);
  }

  lemma SameMap(b: Blob, ts: seq<Token>, b': Blob, ts': seq<Token>)
    requires Editable(b, ts) && Editable(b', ts') && SameRsv(b, b')
    ensures forall rsv :: RsvReads(b, rsv) <==> RsvReads(b', rsv)
    ensures RsvEnded(b) <==> RsvEnded(b')
  {
    InBuffer(b, ts);
    InBuffer(b', ts');
    hide Editable;
    hide RsvReads;
    forall rsv ensures RsvReads(b, rsv) <==> RsvReads(b', rsv) {
      if RsvReads(b, rsv) { RsvKept(b, b', rsv); }
      if RsvReads(b', rsv) { RsvKept(b', b, rsv); }
    }
    EndedReads(b);
    EndedReads(b');
  }

  /** With its end before the structure block the reserve map survives, and so does acceptance. */
  lemma MapAndRoot(b: Blob, ts: seq<Token>, b': Blob, ts': seq<Token>)
    requires Editable(b, ts) && Editable(b', ts') && SameRsv(b, b') && Reading(b, ts)[0] == Reading(b', ts')[0]
    ensures forall rsv :: RsvReads(b, rsv) <==> RsvReads(b', rsv)
    ensures RsvEnded(b) ==> RsvEnded(b') && (Accepted(b) <==> Accepted(b'))
  {
    hide RsvReads;
    hide Accepted;
    hide NameAt;
    SameMap(b, ts, b', ts');
    EditableAccepted(b, ts);
    EditableAccepted(b', ts');
    hide Editable;
    hide EndsRsv;
  }

  lemma SetKeepsMap(b: Blob, ts: seq<Token>, b': Blob, ts': seq<Token>, k: nat, name: seq<Byte>, value: seq<Byte>,
                    p: nat)
    requires Editable(b, ts) && Editable(b', ts') && FieldSet(b, ts, b', ts', k, name, value, p)
    ensures forall rsv :: RsvReads(b, rsv) <==> RsvReads(b', rsv)
    ensures RsvEnded(b) ==> RsvEnded(b') && (Accepted(b) <==> Accepted(b'))
  {
    hide Reading;
    hide RsvReads;
    hide RsvEnded;
    hide Accepted;
    hide Laid;
    MapAndRoot(b, ts, b', ts');
  }

  lemma SameKeepsMap(b: Blob, b': Blob, ts: seq<Token>)
    requires Editable(b, ts) && Editable(b', ts) && ReadSame(b, b', ts)
    ensures forall rsv :: RsvReads(b, rsv) <==> RsvReads(b', rsv)
    ensures RsvEnded(b) ==> RsvEnded(b') && (Accepted(b) <==> Accepted(b'))
  {
    hide Reading;
    hide RsvReads;
    hide RsvEnded;
    hide Accepted;
    hide Laid;
    MapAndRoot(b, ts, b', ts);
  }

  lemma PrefixLaid(s: seq<Byte>, ts: seq<Token>, n: nat)
    requires Laid(s, ts) && n <= |ts|
    ensures Laid(s, ts[..n])
  {
    hide Holds;
    hide Offset;
    forall k | 0 <= k < n ensures Holds(s, Offset(ts[..n], k), ts[..n][k]) {
      assert ts[..n][..k] == ts[..k];
      OffsetPrefix(ts[..n], ts, k);
      assert Holds(s, Offset(ts, k), ts[k]);
    }
  }

  // ---------- a reserve map that runs into the structure block ----------

  const RUN_OVER := Header(FDT_MAGIC, 98, 56, 96, 40, 17, 16, 2, 40)

  /** One entry of size one and no terminator, then a root with a property "a" of twelve bytes. */
  function RunOver(v: seq<Byte>): (m: seq<Byte>)
    requires |v| == 12
    ensures |m| == 98
    ensures forall j :: 76 <= j < 88 ==> m[j] == v[j - 76]
  {
    seq(40, i => 0) + [0, 0, 0, 0, 0, 0, 0, 0, 0, 0, 0, 0, 0, 0, 0, 1]
    + [0, 0, 0, 1, 0, 0, 0, 0] + [0, 0, 0, 3, 0, 0, 0, 12, 0, 0, 0, 0] + v + [0, 0, 0, 2] + [0, 0, 0, 9] + [97, 0]
  }

  lemma RunOverTokens(v: seq<Byte>)
    requires |v| == 12
    ensures var ts := [BeginNode([]), Prop(0, v), EndNode, End];
            Rooted(ts) && Offset(ts, 0) == 0 && Offset(ts, 1) == 8 && Offset(ts, 2) == 32 && Offset(ts, 3) == 36
  {
    var ts := [BeginNode([]), Prop(0, v), EndNode, End];
    assert Size(ts[0]) == 8 && Size(ts[1]) == 24 && Size(ts[2]) == 4;
    NoOffset(ts);
    OffsetStep(ts, 0);
    OffsetStep(ts, 1);
    OffsetStep(ts, 2);
    hide Size;
    hide Offset;
    assert Depth(ts, 0) == 0;
    assert Depth(ts, 1) == 1;
    assert Depth(ts, 2) == 1;
    assert Depth(ts, 3) == 0;
  }

  lemma RunOverHolds(s: seq<Byte>, v: seq<Byte>)
    requires |v| == 12 && s == RunOver(v)[56..96]
    ensures Holds(s, 0, BeginNode([])) && Holds(s, 8, Prop(0, v)) && Holds(s, 32, EndNode) && Holds(s, 36, End)
  {
    assert forall j :: 0 <= j < 40 ==> s[j] == RunOver(v)[56 + j];
    assert s[20..32] == v;
  }

  lemma RunOverReads(v: seq<Byte>)
    requires |v| == 12
    ensures Editable(Blob(RUN_OVER, RunOver(v)), [BeginNode([]), Prop(0, v), EndNode, End])
  {
    hide Holds;
    hide Rooted;
    hide Offset;
    hide NameAt;
    var b := Blob(RUN_OVER, RunOver(v));
    assert StringsOf(b) == [97, 0];
    NameIsString([97, 0], 0, [97]);
    RunOverTokens(v);
    RunOverHolds(StructOf(b), v);
  }

  lemma LongIsZero(m: seq<Byte>, at: nat)
    requires at + 8 <= |m|
    ensures LongAt(m, at) == 0 <==> forall j :: at <= j < at + 8 ==> m[j] == 0
  {
    assert Word(m, at) == 0 <==> m[at] == m[at + 1] == m[at + 2] == m[at + 3] == 0;
    assert Word(m, at + 4) == 0 <==> m[at + 4] == m[at + 5] == m[at + 6] == m[at + 7] == 0;
  }

  /** It can be edited, and its reserve map ends only where eight bytes of the property's value are zero. */
  lemma MapRunsOver(v: seq<Byte>)
    requires |v| == 12
    ensures var b := Blob(RUN_OVER, RunOver(v));
            && Editable(b, [BeginNode([]), Prop(0, v), EndNode, End]) && !RsvEnded(b)
            && !EndsRsv(b, 0) && !EndsRsv(b, 1) && (EndsRsv(b, 2) <==> forall j :: 4 <= j < 12 ==> v[j] == 0)
            && (EndsRsv(b, 2) ==> Accepted(b))
  {
    hide Editable;
    hide LongAt;
    hide Accepted;
    var m := RunOver(v);
    RunOverReads(v);
    assert m[55] == 1 && m[67] == 3;
    LongIsZero(m, 48);
    LongIsZero(m, 64);
    LongIsZero(m, 80);
    assert forall j :: 4 <= j < 12 ==> v[j] == m[j + 76];
    EditableAccepted(Blob(RUN_OVER, m), [BeginNode([]), Prop(0, v), EndNode, End]);
  }

  function RunOverItems(v: seq<Byte>): seq<Item> { [Node([]), Field([97], v), NodeEnd, Stop] }

  lemma RunOverReading(v: seq<Byte>)
    requires |v| == 12
    ensures var b, ts := Blob(RUN_OVER, RunOver(v)), [BeginNode([]), Prop(0, v), EndNode, End];
            StringsOk(b) && AllNamed(b, ts) && Reading(b, ts) == RunOverItems(v)
  {
    hide NameAt;
    var b := Blob(RUN_OVER, RunOver(v));
    assert StringsOf(b) == [97, 0];
    NameIsString([97, 0], 0, [97]);
  }

  lemma SetOnly(v: seq<Byte>, v': seq<Byte>, p: nat, items: seq<Item>)
    requires IsSet(RunOverItems(v), 0, [97], v', p, items)
    ensures items == RunOverItems(v')
  {
    assert FieldAt(RunOverItems(v), 0, [97], 1);
  }

  lemma RunOverStarts(b: Blob, ts: seq<Token>, v: seq<Byte>)
    requires Editable(b, ts) && Reading(b, ts) == RunOverItems(v) && |v| == 12
    ensures |ts| == 4 && ts[1].Prop? && ts[1].value == v && Offset(ts, 1) == 8
  {
    hide NameAt;
    hide Laid;
    hide Rooted;
    assert RunOverItems(v)[0] == ItemOf(b, ts[0]) && RunOverItems(v)[1] == ItemOf(b, ts[1]);
    assert ts[0] == BeginNode([]);
    NoOffset(ts);
    OffsetStep(ts, 0);
  }

  lemma ValueIn(m: seq<Byte>, n: nat, t: Token)
    requires 56 + n <= |m| && t.Prop? && |t.value| == 12 && Holds(m[56..56 + n], 8, t)
    ensures 32 <= n && Word(m, 64) == 3 && m[76..88] == t.value
  {
    var s := m[56..56 + n];
    assert forall k :: 8 <= k < 12 ==> s[k] == m[56 + k];
    WordLocal(s, 8, m, 64);
    forall k | 0 <= k < 12 ensures m[76..88][k] == t.value[k] {
      assert t.value[k] == s[20..32][k] == s[20 + k] == m[76 + k];
    }
  }

  /** The bytes of what reads so: the second word after the root's is a property's tag, and its value follows. */
  lemma RunOverBytes(b: Blob, ts: seq<Token>, v: seq<Byte>)
    requires Editable(b, ts) && Reading(b, ts) == RunOverItems(v) && |v| == 12 && b.h.offStruct == 56
    ensures 88 <= b.h.totalsize <= |b.mem| && Word(b.mem, 64) == 3 && b.mem[76..88] == v
  {
    hide Holds;
    hide NameAt;
    hide Word;
    hide Offset;
    hide Reading;
    hide Rooted;
    RunOverStarts(b, ts, v);
    assert Holds(StructOf(b), Offset(ts, 1), ts[1]);
    ValueIn(b.mem, b.h.sizeStruct, ts[1]);
  }

  /** And setting that property through the editor leaves a blob whose map ends or not as the new value says, whatever
      it did before: the map is not kept. */
  lemma SettingMovesMapEnd(v: seq<Byte>, v': seq<Byte>, b': Blob, ts': seq<Token>, p: nat)
    requires |v| == |v'| == 12 && Editable(b', ts')
    requires FieldSet(Blob(RUN_OVER, RunOver(v)), [BeginNode([]), Prop(0, v), EndNode, End], b', ts', 0, [97], v', p)
    ensures !EndsRsv(b', 0) && !EndsRsv(b', 1) && (EndsRsv(b', 2) <==> forall j :: 4 <= j < 12 ==> v'[j] == 0)
  {
    hide LongAt;
    hide Editable;
    hide IsSet;
    hide Reading;
    var m, m' := RunOver(v), b'.mem;
    RunOverReading(v);
    SetOnly(v, v', p, Reading(b', ts'));
    RunOverBytes(b', ts', v');
    assert m'[..56][55] == m[..56][55] == 1;
    LongIsZero(m', 48);
    LongIsZero(m', 64);
    LongIsZero(m', 80);
    assert m'[64] != 0 || m'[65] != 0 || m'[66] != 0 || m'[67] != 0;
    assert forall j :: 4 <= j < 12 ==> v'[j] == m'[j + 76];
  }
}
