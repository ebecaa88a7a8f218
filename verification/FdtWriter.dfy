/** libfdt's sequential writer: nodes and properties appended at the front of a buffer, names piled up from its end,
and one pass at the finish that brings the two together. */
module FdtWriter {
  import opened Common
  import opened FdtTokens
  import opened FdtReader
  import opened FdtCheck
  import opened FdtBytes

  const NOSPACE: int := -3
  const BADFLAGS: int := -18

  /** What the caller asked to be written. */
  datatype Event = Open(name: seq<Byte>) | Close | Property(name: seq<Byte>, value: seq<Byte>)

  /** Token t says event e: for a property, its name offset stands for its name. */
  ghost predicate Says(b: Blob, e: Event, t: Token)
    requires StringsOk(b)
  {
    match e
    case Open(name) => t == BeginNode(name)
    case Close => t == EndNode
    case Property(name, value) =>
      t.Prop? && t.value == value && t.nameoff < U32
      && NameAt(StringsOf(b), StringIndex(b, Signed(t.nameoff))) == Some(name)
  }

  ghost predicate AllSay(b: Blob, log: seq<Event>, ts: seq<Token>)
    requires StringsOk(b)
  {
    |log| == |ts| && forall i :: 0 <= i < |log| ==> Says(b, log[i], ts[i])
  }

  /** The structure block is exactly these tokens, and they say what was asked. */
  ghost predicate Written(b: Blob, log: seq<Event>, ts: seq<Token>) {
    && StructOk(b) && StringsOk(b)
    && Laid(StructOf(b), ts) && Offset(ts, |ts|) == b.h.sizeStruct
    && AllSay(b, log, ts)
  }

  // ---------- what appending keeps ----------

  /** Tokens in a block stay when the block grows. */
  lemma LaidKept(s: seq<Byte>, s': seq<Byte>, ts: seq<Token>)
    requires Laid(s, ts) && Offset(ts, |ts|) == |s| <= |s'| && s'[..|s|] == s
    ensures Laid(s', ts)
  {
    hide Offset;
    hide Holds;
    forall k | 0 <= k < |ts| ensures Holds(s', Offset(ts, k), ts[k]) {
      assert Holds(s, Offset(ts, k), ts[k]);
      OffsetGrows(ts, k, |ts|);
      HoldsInMore(s, s', Offset(ts, k), ts[k]);
    }
  }

  lemma HoldsInMore(s: seq<Byte>, s': seq<Byte>, off: nat, t: Token)
    requires Holds(s, off, t) && off + Used(t) <= |s| <= |s'| && s'[..|s|] == s
    ensures Holds(s', off, t)
  {
    hide Holds;
    forall j | off <= j < off + Used(t) ensures s[j] == s'[j - off + off] { assert s'[..|s|][j] == s'[j]; }
    HoldsLocal(s, off, s', off, t);
  }

  lemma SaysKept(b: Blob, b': Blob, log: seq<Event>, ts: seq<Token>)
    requires StringsOk(b) && StringsOk(b') && StringsOf(b) == StringsOf(b')
    requires b.h.magic == b'.h.magic && AllSay(b, log, ts)
    ensures AllSay(b', log, ts)
  {
    hide NameAt;
    forall i | 0 <= i < |log| ensures Says(b', log[i], ts[i]) { assert Says(b, log[i], ts[i]); }
  }

  lemma SaysSame(b: Blob, b': Blob, e: Event, t: Token)
    requires StringsOk(b) && StringsOk(b') && StringsOf(b) == StringsOf(b') && b.h.magic == b'.h.magic && Says(b, e, t)
    ensures Says(b', e, t)
  {
    hide NameAt;
  }

  lemma SwStrings(b: Blob)
    requires StringsOk(b) && b.h.magic == SW_MAGIC
    ensures StringsOf(b) == b.mem[b.h.totalsize - b.h.sizeStrings..b.h.totalsize]
  {
  }

  /** A token put at the end of the structure block. */
  lemma AppendToken(b: Blob, b': Blob, log: seq<Event>, ts: seq<Token>, t: Token)
    requires Written(b, log, ts) && b.h.magic == SW_MAGIC
    requires b'.h == b.h.(sizeStruct := b.h.sizeStruct + Size(t))
    requires b'.h.offStruct + b'.h.sizeStruct + b'.h.sizeStrings <= b'.h.totalsize
    requires t.Prop? ==> t.nameoff < U32 && |t.value| < U32
    requires t.BeginNode? ==> 0 !in t.name
    requires Patched(b.mem, b'.mem, b.h.offStruct + b.h.sizeStruct, TokenBytes(t))
    ensures StructOk(b') && StringsOk(b') && StringsOf(b') == StringsOf(b)
    ensures Laid(StructOf(b'), ts + [t]) && Offset(ts + [t], |ts| + 1) == b'.h.sizeStruct && AllSay(b', log, ts)
  {
    hide Offset;
    hide Laid;
    hide AllSay;
    hide TokenBytes;
    hide Holds;
    assert |b'.mem| == |b.mem|;
    hide Patched;
    PatchKeeps(b.mem, b'.mem, b.h.offStruct + b.h.sizeStruct, TokenBytes(t), b.h.totalsize - b.h.sizeStrings,
               b.h.totalsize);
    SwStrings(b);
    SwStrings(b');
    StructGrows(b, b', t);
    hide StringsOf;
    hide StructOf;
    SaysKept(b, b', log, ts);
    LaidOneMore(StructOf(b), StructOf(b'), ts, t);
  }

  lemma StructGrows(b: Blob, b': Blob, t: Token)
    requires StructOk(b) && StructOk(b') && b'.h.offStruct == b.h.offStruct
    requires b'.h.sizeStruct == b.h.sizeStruct + Size(t)
    requires t.Prop? ==> t.nameoff < U32 && |t.value| < U32
    requires t.BeginNode? ==> 0 !in t.name
    requires Patched(b.mem, b'.mem, b.h.offStruct + b.h.sizeStruct, TokenBytes(t))
    ensures StructOf(b')[..b.h.sizeStruct] == StructOf(b) && Holds(StructOf(b'), b.h.sizeStruct, t)
  {
    hide TokenBytes;
    hide Holds;
    hide Patched;
    var lo, mid := b.h.offStruct, b.h.offStruct + b.h.sizeStruct;
    PatchKeeps(b.mem, b'.mem, mid, TokenBytes(t), lo, mid);
    SliceFront(b'.mem, lo, mid, lo + b'.h.sizeStruct);
    PatchedHolds(b.mem, b'.mem, lo, b'.h.sizeStruct, b.h.sizeStruct, t);
  }

  lemma LaidOneMore(s: seq<Byte>, s': seq<Byte>, ts: seq<Token>, t: Token)
    requires Laid(s, ts) && Offset(ts, |ts|) == |s| <= |s'| && s'[..|s|] == s && Holds(s', |s|, t)
    ensures Laid(s', ts + [t]) && Offset(ts + [t], |ts| + 1) == |s| + Size(t)
  {
    hide *;
    LaidKept(s, s', ts);
    LaidMore(s', ts, t);
    Appended(ts, t);
  }

  /** A name put in front of the strings, which end where the buffer ends. */
  lemma PrependString(b: Blob, b': Blob, log: seq<Event>, ts: seq<Token>, name: seq<Byte>)
    requires Written(b, log, ts) && b.h.magic == SW_MAGIC && 0 !in name
    requires b'.h == b.h.(sizeStrings := b.h.sizeStrings + |name| + 1)
    requires b'.h.offStruct + b'.h.sizeStruct + b'.h.sizeStrings <= b'.h.totalsize
    requires Patched(b.mem, b'.mem, b.h.totalsize - b'.h.sizeStrings, name + [0])
    ensures Written(b', log, ts) && NameAt(StringsOf(b'), 0) == Some(name)
  {
    hide NameAt;
    hide Offset;
    hide Laid;
    assert StructOf(b') == StructOf(b);
    var strs, strs' := StringsOf(b), StringsOf(b');
    var base, front := b.h.totalsize - b'.h.sizeStrings, name + [0];
    forall j | 0 <= j < |strs'| ensures strs'[j] == (front + strs + [])[j] {
      assert strs'[j] == b'.mem[base + j];
      assert j >= |front| ==> strs[j - |front|] == b.mem[base + j];
    }
    assert strs' == front + strs + [];
    assert StringAt(strs', 0, name);
    NameIsString(strs', 0, name);
    forall i | 0 <= i < |log| ensures Says(b', log[i], ts[i]) {
      assert Says(b, log[i], ts[i]);
      if log[i].Property? {
        NamesKept(name + [0], strs, [], StringIndex(b, Signed(ts[i].nameoff)), log[i].name);
      }
    }
  }

  /** Bytes outside both blocks do not matter. */
  lemma SameBlocks(b: Blob, b': Blob, log: seq<Event>, ts: seq<Token>)
    requires Written(b, log, ts) && b'.h == b.h && |b'.mem| == |b.mem|
    requires StructOf(b') == StructOf(b) && StringsOf(b') == StringsOf(b)
    ensures Written(b', log, ts)
  {
    hide Offset;
    hide Laid;
    SaysKept(b, b', log, ts);
  }

  function ProbeStruct(h: Header): int {
    if h.magic == FDT_MAGIC then BADSTATE
    else if h.magic != SW_MAGIC then BADMAGIC
    else if h.offStrings != h.totalsize then BADSTATE
    else 0
  }

  function ProbeMemrsv(h: Header): int {
    if h.magic == FDT_MAGIC then BADSTATE
    else if h.magic != SW_MAGIC then BADMAGIC
    else if h.offStrings != 0 then BADSTATE
    else 0
  }

  function LongBytes(v: nat): (b: seq<Byte>)
    requires v < U64
    ensures |b| == 8 && LongAt(b, 0) == v
  {
    var hi, lo := WordBytes(v / U32), WordBytes(v % U32);
    assert forall k {:trigger (hi + lo)[k]} :: 4 <= k < 8 ==> (hi + lo)[k] == lo[k - 4];
    WordLocal(hi, 0, hi + lo, 0);
    WordLocal(lo, 0, hi + lo, 4);
    hi + lo
  }

  lemma LongPut(m: seq<Byte>, at: nat, v: nat)
    requires v < U64 && at + 8 <= |m| && forall j :: at <= j < at + 8 ==> m[j] == LongBytes(v)[j - at]
    ensures LongAt(m, at) == v
  {
    hide Word;
    hide LongBytes;
    WordLocal(m, at, LongBytes(v), 0);
    WordLocal(m, at + 4, LongBytes(v), 4);
  }

  lemma EntryPut(b: Blob, m: seq<Byte>, b': Blob, i: nat, e: Entry)
    requires e.address < U64 && e.size < U64 && b'.h.offRsvmap == b.h.offRsvmap
    requires var at := b.h.offRsvmap + 16 * i;
             Patched(b.mem, m, at, LongBytes(e.address)) && Patched(m, b'.mem, at + 8, LongBytes(e.size))
    ensures EntryIs(b', i, e) && |b'.mem| == |b.mem|
    ensures b'.mem[..b.h.offRsvmap + 16 * i] == b.mem[..b.h.offRsvmap + 16 * i]
  {
    hide LongAt;
    hide LongBytes;
    var at := b.h.offRsvmap + 16 * i;
    LongPut(m, at, e.address);
    LongPut(b'.mem, at + 8, e.size);
    LongKept(m, b'.mem, at + 8, at);
  }

  class Writer {
    const buf: array<Byte>
    var h: Header
    ghost var rsv: seq<Entry>
    ghost var log: seq<Event>
    ghost var ts: seq<Token>

    ghost function View(): Blob
      reads this, buf
    {
      Blob(h, buf[..])
    }

    ghost predicate Fields()
      reads this
    {
      && buf.Length <= INT_MAX && h.totalsize == buf.Length && h.magic == SW_MAGIC
      && h.version == 17 && h.lastComp <= 1 && h.offRsvmap == 48 <= h.offStruct
      && h.offStruct + h.sizeStruct + h.sizeStrings <= h.totalsize
    }

    /** Reserve entries are being added. */
    ghost predicate Reserving()
      reads this, buf
    {
      && Fields() && h.offStrings == 0 && h.sizeStruct == 0 && h.sizeStrings == 0
      && h.offStruct == 48 + 16 * |rsv| && log == [] && ts == []
      && forall i :: 0 <= i < |rsv| ==> EntryIs(View(), i, rsv[i])
    }

    /** Nodes and properties are being added. */
    ghost predicate Building()
      reads this, buf
    {
      Fields() && h.offStrings == h.totalsize && Written(View(), log, ts) && RsvReads(View(), rsv)
    }

    ghost function Room(): int
      reads this
    {
      h.totalsize - h.offStruct - h.sizeStruct - h.sizeStrings
    }

    constructor (buf: array<Byte>)
      ensures this.buf == buf
    {
      this.buf := buf;
      h := Header(0, 0, 0, 0, 0, 0, 0, 0, 0);
      rsv, log, ts := [], [], [];
    }

    /** fdt_create_with_flags: an empty tree, ready for reserve entries. */
    method Create(flags: nat) returns (err: int)
      requires buf.Length <= INT_MAX
      modifies buf, this
      ensures err == 0 <==> 48 <= buf.Length && flags <= 1
      ensures err == 0 ==> Reserving() && rsv == []
      ensures err != 0 ==> h == old(h) && buf[..] == old(buf[..])
    {
      var hdrsize := 48;
      if buf.Length < hdrsize {
        return NOSPACE;
      }
      if flags > 1 {
        return BADFLAGS;
      }
      for i := 0 to buf.Length {
        buf[i] := 0;
      }
      h := Header(SW_MAGIC, buf.Length, hdrsize, 0, hdrsize, 17, flags, 0, 0);
      rsv, log, ts := [], [], [];
      err := 0;
    }

    /** fdt_add_reservemap_entry. */
    method AddReservemapEntry(address: nat, size: nat) returns (err: int)
      requires (Reserving() || Building()) && address < U64 && size < U64
      modifies buf, this`h, this`rsv
      ensures err == 0 <==> old(Reserving()) && 16 <= old(Room())
      ensures err != 0 ==> h == old(h) && buf[..] == old(buf[..]) && rsv == old(rsv)
      ensures err == 0 ==> Reserving() && rsv == old(rsv) + [Entry(address, size)]
      ensures err == 0 ==> h == old(h).(offStruct := old(h.offStruct) + 16)
    {
      hide EntryIs;
      hide Written;
      hide RsvReads;
      hide LongAt;
      err := ProbeMemrsv(h);
      if err != 0 {
        return;
      }
      var offset := h.offStruct;
      if offset + 16 > h.totalsize {
        return NOSPACE;
      }
      ghost var b, e := View(), Entry(address, size);
      PutBytes(buf, offset, LongBytes(address));
      ghost var m := buf[..];
      PutBytes(buf, offset + 8, LongBytes(size));
      h := h.(offStruct := offset + 16);
      EntryPut(b, m, View(), |rsv|, e);
      forall i | 0 <= i < |rsv| ensures EntryIs(View(), i, rsv[i]) { EntryKept(b, View(), offset, i, rsv[i]); }
      rsv := rsv + [e];
    }

    /** fdt_finish_reservemap: an empty entry ends the map, and the structure block begins. */
    method FinishReservemap() returns (err: int)
      requires Reserving() || Building()
      modifies buf, this`h, this`rsv
      ensures err == 0 <==> old(Reserving()) && 16 <= old(Room())
      ensures err == 0 ==> Building() && log == [] && h.offStruct == old(h.offStruct) + 16
      ensures err != 0 ==> h == old(h) && buf[..] == old(buf[..])
      ensures rsv == old(rsv)
    {
      hide LongAt;
      err := AddReservemapEntry(0, 0);
      if err != 0 {
        return;
      }
      ghost var b, n := View(), |rsv| - 1;
      assert EntryIs(b, n, rsv[n]);
      h := h.(offStrings := h.totalsize);
      rsv := rsv[..n];
      forall i | 0 <= i < |rsv| ensures EntryIs(View(), i, rsv[i]) { assert EntryIs(b, i, rsv[i]); }
    }

    /** fdt_grab_space_: more of the structure block, or -1. */
    method Grab(len: nat) returns (offset: int)
      requires Fields()
      modifies this`h
      ensures if len <= old(Room()) then offset == old(h.sizeStruct) && h == old(h).(sizeStruct := offset + len)
              else offset == -1 && h == old(h)
    {
      offset := h.sizeStruct;
      var spaceleft := h.totalsize - h.offStruct - h.sizeStrings;
      if offset + len > spaceleft {
        return -1;
      }
      h := h.(sizeStruct := offset + len);
    }

    /** fdt_begin_node. */
    method BeginNode(name: seq<Byte>) returns (err: int)
      requires (Reserving() || Building()) && 0 !in name
      modifies buf, this
      ensures err == 0 <==> old(Building()) && Size(Token.BeginNode(name)) <= old(Room())
      ensures err == 0 ==> Building() && log == old(log) + [Open(name)]
      ensures rsv == old(rsv)
      ensures err != 0 ==> h == old(h) && buf[..] == old(buf[..]) && log == old(log) && ts == old(ts)
    {
      hide Written;
      hide RsvReads;
      err := ProbeStruct(h);
      if err != 0 {
        return;
      }
      ghost var b, t := View(), Token.BeginNode(name);
      AlignedSum(4, |name| + 1);
      var offset := Grab(4 + Aligned(|name| + 1));
      if offset < 0 {
        return NOSPACE;
      }
      var at := h.offStruct + offset;
      PutBytes(buf, at, WordBytes(1));
      ghost var m := buf[..];
      PutBytes(buf, at + 4, name + [0]);
      PatchedTwice(b.mem, m, buf[..], at, WordBytes(1), name + [0]);
      Emitted(b, View(), rsv, log, ts, Open(name), t);
      log, ts := log + [Open(name)], ts + [t];
    }

    /** fdt_end_node. */
    method EndNode() returns (err: int)
      requires Reserving() || Building()
      modifies buf, this
      ensures err == 0 <==> old(Building()) && 4 <= old(Room())
      ensures err == 0 ==> Building() && log == old(log) + [Close]
      ensures rsv == old(rsv)
      ensures err != 0 ==> h == old(h) && buf[..] == old(buf[..]) && log == old(log) && ts == old(ts)
    {
      hide Written;
      hide RsvReads;
      err := ProbeStruct(h);
      if err != 0 {
        return;
      }
      ghost var b, t := View(), Token.EndNode;
      var offset := Grab(4);
      if offset < 0 {
        return NOSPACE;
      }
      PutBytes(buf, h.offStruct + offset, WordBytes(2));
      assert TokenBytes(t) == WordBytes(2);
      Emitted(b, View(), rsv, log, ts, Close, t);
      log, ts := log + [Close], ts + [t];
    }

    /** fdt_add_string_: the name below the strings already there, as an offset back from the buffer's end; 0 if there
    is no room. The room test is in 32-bit arithmetic and wraps when the name alone is past the buffer's size: the
    store then goes below the buffer, which is a fault here. */
    method AddString(name: seq<Byte>) returns (nameoff: int, fault: bool)
      requires Building() && 0 !in name && |name| < INT_MAX
      modifies buf, this`h
      ensures fault <==> old(h.totalsize) < old(h.sizeStrings) + |name| + 1
      ensures !fault && old(Room()) < |name| + 1 ==> nameoff == 0 && h == old(h) && buf[..] == old(buf[..])
      ensures !fault && |name| + 1 <= old(Room()) ==>
                && h == old(h).(sizeStrings := old(h.sizeStrings) + |name| + 1) && nameoff == 0 - h.sizeStrings
                && Patched(old(buf[..]), buf[..], h.totalsize - h.sizeStrings, name + [0])
    {
      hide Written;
      hide RsvReads;
      var strtabsize, len := h.sizeStrings, |name| + 1;
      var offset := strtabsize + len;
      var structTop := h.offStruct + h.sizeStruct;
      fault := false;
      if (h.totalsize - offset) % U32 < structTop {
        return 0, false;
      }
      if offset > h.totalsize {
        return 0, true;
      }
      PutBytes(buf, h.totalsize - offset, name + [0]);
      h := h.(sizeStrings := strtabsize + len);
      nameoff := -offset;
    }

    /** fdt_find_add_string_, or just the adding if names are not to be shared. */
    method FindAddString(name: seq<Byte>) returns (nameoff: int, added: bool, fault: bool)
      requires Building() && 0 !in name && |name| < INT_MAX
      modifies buf, this`h
      ensures fault ==> old(h.totalsize) < old(h.sizeStrings) + |name| + 1
      ensures !fault ==> Building()
      ensures !fault ==> if added then NameAdded(old(View()), View(), name) else View() == old(View())
      ensures !fault && nameoff != 0 ==> NameStands(View(), nameoff, name)
      ensures !fault && nameoff == 0 ==> !added && old(Room()) < |name| + 1
    {
      hide Written;
      hide RsvReads;
      hide NameStands;
      hide NameAdded;
      ghost var b := View();
      if h.lastComp != 1 {
        nameoff := FindName(name);
        if nameoff != 0 {
          return nameoff, false, false;
        }
      }
      nameoff, fault := AddString(name);
      added := nameoff != 0;
      if !fault && nameoff != 0 {
        NameWritten(b, View(), rsv, log, ts, name);
      }
    }

    /** fdt_find_string_ over the strings written so far: an offset back from the buffer's end, or 0. */
    method FindName(name: seq<Byte>) returns (nameoff: int)
      requires Building() && 0 !in name
      ensures nameoff != 0 ==> NameStands(View(), nameoff, name)
      ensures nameoff == 0 ==> forall i: nat :: NameAt(StringsOf(View()), i) != Some(name)
    {
      hide Laid;
      hide Offset;
      hide AllSay;
      hide RsvReads;
      hide NameAt;
      SwStrings(View());
      var p := FindString(buf[h.totalsize - h.sizeStrings..h.totalsize], name);
      if p < 0 {
        return 0;
      }
      NameInside(StringsOf(View()), p, name);
      nameoff := p - h.sizeStrings;
    }

    /** fdt_property. */
    method AddProperty(name: seq<Byte>, value: seq<Byte>) returns (err: int, fault: bool)
      requires (Reserving() || Building()) && 0 !in name && |name| < INT_MAX && |value| < INT_MAX - 16
      modifies buf, this
      ensures fault ==> old(h.totalsize) < old(h.sizeStrings) + |name| + 1
      ensures !fault && err == 0 ==> Building() && log == old(log) + [Property(name, value)]
      ensures rsv == old(rsv)
      ensures !fault && err != 0 ==>
                (if old(Building()) then Building() else Reserving()) && h == old(h) && log == old(log)
      ensures old(Building()) && |name| + 1 + Size(Prop(0, value)) <= old(Room()) ==> !fault && err == 0
    {
      hide Written;
      hide RsvReads;
      hide NameStands;
      hide TokenBytes;
      hide Aligned;
      hide Says;
      fault := false;
      err := ProbeStruct(h);
      if err != 0 {
        return;
      }
      ghost var b := View();
      var nameoff, added;
      nameoff, added, fault := FindAddString(name);
      if fault {
        return;
      }
      if nameoff == 0 {
        return NOSPACE, false;
      }
      ghost var c, t := View(), Prop(nameoff % U32, value);
      AlignedSum(12, |value|);
      var offset := Grab(12 + Aligned(|value|));
      if offset < 0 {
        if added {
          h := h.(sizeStrings := h.sizeStrings - (|name| + 1));
          RolledBack(b, View(), rsv, log, ts, name);
        }
        return NOSPACE, false;
      }
      hide NameAdded;
      hide Patched;
      PutProperty(buf, h.offStruct + offset, nameoff % U32, value);
      NameSays(c, nameoff, name, value);
      Emitted(c, View(), rsv, log, ts, Property(name, value), t);
      log, ts := log + [Property(name, value)], ts + [t];
    }

    /** fdt_finish: a complete blob that says what was asked. */
    method Finish() returns (err: int)
      requires Reserving() || Building()
      modifies buf, this
      ensures err == 0 <==> old(Building()) && 4 <= old(Room())
      ensures err == 0 ==> Finished(View(), rsv, log, ts) && log == old(log)
      ensures rsv == old(rsv)
      ensures err != 0 ==> h == old(h) && buf[..] == old(buf[..]) && log == old(log) && ts == old(ts)
    {
      hide Written;
      hide RsvReads;
      hide Ended;
      hide Finished;
      err := ProbeStruct(h);
      if err != 0 {
        return;
      }
      ghost var b := View();
      var offset := Grab(4);
      if offset < 0 {
        return NOSPACE;
      }
      PutBytes(buf, h.offStruct + offset, WordBytes(9));
      EndPut(b, View(), rsv, log, ts);
      Relocate(ts + [End]);
    }

    /** The strings moved down behind the structure block, and everything that refers to them brought up to date. */
    method Relocate(ghost us: seq<Token>)
      requires Fields() && Ended(View(), rsv, log, us)
      modifies buf, this`h, this`ts
      ensures Finished(View(), rsv, log, ts)
    {
      hide RsvReads;
      hide Laid;
      hide FixedTo;
      hide AllSay;
      hide Finished;
      ghost var c := View();
      MoveStrings(us);
      ghost var m := buf[..];
      hide StringsOf;
      FixNames(us);
      h := h.(totalsize := h.offStrings + h.sizeStrings, lastComp := 16, magic := FDT_MAGIC);
      ts := FixedTo(us, |us|, h.sizeStrings);
      BlobFinished(c, View(), m, rsv, log, us);
    }

    method MoveStrings(ghost us: seq<Token>)
      requires Fields() && Ended(View(), rsv, log, us)
      modifies buf, this`h
      ensures h == old(h).(offStrings := old(h.offStruct) + old(h.sizeStruct)) && StructOk(View())
      ensures StructOf(View()) == StructOf(old(View())) && |buf[..]| == |old(buf[..])|
      ensures buf[..][..h.offStrings] == old(buf[..])[..h.offStrings]
      ensures buf[..][h.offStrings..h.offStrings + h.sizeStrings] == StringsOf(old(View()))
    {
      hide RsvReads;
      hide Laid;
      hide AllSay;
      hide Patched;
      ghost var c := View();
      var oldstroffset, newstroffset := h.totalsize - h.sizeStrings, h.offStruct + h.sizeStruct;
      MoveBytes(buf, newstroffset, oldstroffset, h.sizeStrings);
      assert oldstroffset + h.sizeStrings == h.totalsize;
      StringsMoved(c, buf[..], newstroffset);
      h := h.(offStrings := newstroffset);
    }

    /** The pass over the structure block at the finish: offsets from the end become offsets from the start. */
    method FixNames(ghost us: seq<Token>)
      requires StructOk(View()) && Laid(StructOf(View()), us) && EndsOnce(us)
      modifies buf
      ensures Laid(StructOf(View()), FixedTo(us, |us|, h.sizeStrings))
      ensures SameOutside(old(buf[..]), buf[..], h.offStruct, h.offStruct + h.sizeStruct)
    {
      hide Offset;
      hide Laid;
      hide Word;
      hide FixedTo;
      var offset: nat := 0;
      ghost var k := 0;
      FixedNone(us, h.sizeStrings);
      while true
        invariant k < |us| && offset == Offset(us, k) && StructOk(View())
        invariant Laid(StructOf(View()), FixedTo(us, k, h.sizeStrings))
        invariant SameOutside(old(buf[..]), buf[..], h.offStruct, h.offStruct + h.sizeStruct)
        decreases |us| - k
      {
        ghost var b := View();
        FixRead(b, us, k, h.sizeStrings);
        var tag, next := ReadTag(Blob(h, buf[..]), offset);
        if tag == 9 {
          FixLast(us, k, h.sizeStrings);
          return;
        }
        if tag == 3 {
          var nameoff := (WordAt(Blob(h, buf[..]), offset + 8) + h.sizeStrings) % U32;
          PutBytes(buf, h.offStruct + offset + 8, WordBytes(nameoff));
          assert Patched(b.mem, buf[..], h.offStruct + Offset(us, k) + 8, WordBytes(nameoff));
          FixPatched(b, View(), us, k, h.sizeStrings, nameoff);
        } else {
          FixSkip(us, k, h.sizeStrings);
        }
        k := k + 1;
        offset := next;
      }
    }
  }

  lemma NameWritten(b: Blob, b': Blob, rsv: seq<Entry>, log: seq<Event>, ts: seq<Token>, name: seq<Byte>)
    requires Written(b, log, ts) && RsvReads(b, rsv) && b.h.magic == SW_MAGIC && 0 !in name
    requires b'.h == b.h.(sizeStrings := b.h.sizeStrings + |name| + 1)
    requires b'.h.offStruct + b'.h.sizeStruct + b'.h.sizeStrings <= b'.h.totalsize
    requires Patched(b.mem, b'.mem, b.h.totalsize - b'.h.sizeStrings, name + [0])
    ensures Written(b', log, ts) && RsvReads(b', rsv) && NameAdded(b, b', name)
            && NameStands(b', 0 - b'.h.sizeStrings, name)
  {
    hide NameAt;
    hide Laid;
    hide Offset;
    hide AllSay;
    hide StringsOf;
    PatchedLength(b.mem, b'.mem, b.h.totalsize - b'.h.sizeStrings, name + [0]);
    hide Patched;
    PrependString(b, b', log, ts, name);
    LowKept(b, b', rsv, b.h.totalsize - b'.h.sizeStrings, name + [0]);
  }

  lemma NameInside(strs: seq<Byte>, p: nat, name: seq<Byte>)
    requires NameAt(strs, p) == Some(name)
    ensures p < |strs|
  {
  }

  /** The offset stands for the name. */
  ghost predicate NameStands(b: Blob, nameoff: int, name: seq<Byte>) {
    StringsOk(b) && b.h.magic == SW_MAGIC && 0 - b.h.sizeStrings <= nameoff < 0
    && NameAt(StringsOf(b), b.h.sizeStrings + nameoff) == Some(name)
  }

  /** b' is b with a name added below its strings. */
  ghost predicate NameAdded(b: Blob, b': Blob, name: seq<Byte>) {
    && b'.h == b.h.(sizeStrings := b.h.sizeStrings + |name| + 1) && b'.h.sizeStrings <= b.h.totalsize
    && Patched(b.mem, b'.mem, b.h.totalsize - b'.h.sizeStrings, name + [0])
  }

  lemma NameSays(b: Blob, nameoff: int, name: seq<Byte>, value: seq<Byte>)
    requires NameStands(b, nameoff, name)
    ensures StringsOk(b) && Says(b, Property(name, value), Prop(nameoff % U32, value))
  {
    hide NameAt;
    assert Signed(nameoff % U32) == nameoff;
  }

  /** A store above the start of the structure block keeps the reserve map. */
  lemma LowKept(b: Blob, b': Blob, rsv: seq<Entry>, at: nat, bytes: seq<Byte>)
    requires RsvReads(b, rsv) && b'.h.offRsvmap == b.h.offRsvmap && b'.h.offStruct == b.h.offStruct <= at
    requires b'.h.offStruct <= b'.h.totalsize <= |b'.mem| && Patched(b.mem, b'.mem, at, bytes)
    ensures RsvReads(b', rsv)
  {
    PatchKeeps(b.mem, b'.mem, at, bytes, 0, b.h.offStruct);
    assert b'.mem[..b.h.offStruct] == b'.mem[0..b.h.offStruct] && b.mem[..b.h.offStruct] == b.mem[0..b.h.offStruct];
    RsvKept(b, b', rsv);
  }

  /** A name taken back leaves its bytes behind, outside both blocks. */
  lemma RolledBack(b: Blob, b': Blob, rsv: seq<Entry>, log: seq<Event>, ts: seq<Token>, name: seq<Byte>)
    requires Written(b, log, ts) && RsvReads(b, rsv) && b.h.magic == SW_MAGIC && b'.h == b.h
    requires b.h.offStruct + b.h.sizeStruct + b.h.sizeStrings + |name| + 1 <= b.h.totalsize
    requires Patched(b.mem, b'.mem, b.h.totalsize - (b.h.sizeStrings + |name| + 1), name + [0])
    ensures Written(b', log, ts) && RsvReads(b', rsv)
  {
    hide Laid;
    hide Offset;
    hide AllSay;
    hide Patched;
    var at, bytes, h := b.h.totalsize - (b.h.sizeStrings + |name| + 1), name + [0], b.h;
    PatchedLength(b.mem, b'.mem, at, bytes);
    LowKept(b, b', rsv, at, bytes);
    hide RsvReads;
    PatchKeeps(b.mem, b'.mem, at, bytes, h.offStruct, h.offStruct + h.sizeStruct);
    PatchKeeps(b.mem, b'.mem, at, bytes, h.totalsize - h.sizeStrings, h.totalsize);
    SwStrings(b);
    SwStrings(b');
    hide StringsOf;
    SameBlocks(b, b', log, ts);
  }

  /** A written token that says the event asked for. */
  lemma Emitted(b: Blob, b': Blob, rsv: seq<Entry>, log: seq<Event>, ts: seq<Token>, e: Event, t: Token)
    requires Written(b, log, ts) && RsvReads(b, rsv) && b.h.magic == SW_MAGIC
    requires b'.h == b.h.(sizeStruct := b.h.sizeStruct + Size(t))
    requires b'.h.offStruct + b'.h.sizeStruct + b'.h.sizeStrings <= b'.h.totalsize
    requires t.Prop? ==> t.nameoff < U32 && |t.value| < U32
    requires t.BeginNode? ==> 0 !in t.name
    requires Patched(b.mem, b'.mem, b.h.offStruct + b.h.sizeStruct, TokenBytes(t))
    requires Says(b, e, t)
    ensures Written(b', log + [e], ts + [t]) && RsvReads(b', rsv)
  {
    hide Offset;
    hide Laid;
    hide NameAt;
    hide TokenBytes;
    LowKept(b, b', rsv, b.h.offStruct + b.h.sizeStruct, TokenBytes(t));
    hide RsvReads;
    hide Patched;
    AppendToken(b, b', log, ts, t);
    SaysSame(b, b', e, t);
    hide Says;
  }

  // ---------- the finish ----------

  function Fix(t: Token, n: nat): (f: Token)
    ensures Size(f) == Size(t)
  {
    match t case Prop(nameoff, value) => Prop((nameoff + n) % U32, value) case _ => t
  }

  ghost function FixedTo(ts: seq<Token>, k: nat, n: nat): (us: seq<Token>)
    ensures |us| == |ts|
  {
    seq(|ts|, i requires 0 <= i < |ts| => if i < k then Fix(ts[i], n) else ts[i])
  }

  ghost predicate EndsOnce(ts: seq<Token>) {
    0 < |ts| && forall i :: 0 <= i < |ts| ==> (ts[i] == End <==> i == |ts| - 1)
  }

  ghost predicate SameOutside(m: seq<Byte>, m': seq<Byte>, lo: nat, hi: nat) {
    |m'| == |m| && forall j :: 0 <= j < |m| && !(lo <= j < hi) ==> m'[j] == m[j]
  }

  lemma FixedNone(ts: seq<Token>, n: nat)
    ensures FixedTo(ts, 0, n) == ts && Offset(ts, 0) == 0
  {
  }

  lemma FixSkip(ts: seq<Token>, k: nat, n: nat)
    requires k < |ts| && !ts[k].Prop?
    ensures FixedTo(ts, k + 1, n) == FixedTo(ts, k, n)
  {
  }

  lemma FixLast(ts: seq<Token>, k: nat, n: nat)
    requires EndsOnce(ts) && k < |ts| && ts[k] == End
    ensures FixedTo(ts, |ts|, n) == FixedTo(ts, k, n)
  {
  }

  lemma {:induction false} FixedOffset(ts: seq<Token>, k: nat, n: nat, i: nat)
    requires i <= |ts|
    ensures Offset(FixedTo(ts, k, n), i) == Offset(ts, i)
  {
    hide Size;
    if i > 0 { FixedOffset(ts, k, n, i - 1); }
  }

  lemma FixHolds(s: seq<Byte>, us: seq<Token>, k: nat, n: nat)
    requires k < |us| && Laid(s, FixedTo(us, k, n))
    ensures Holds(s, Offset(us, k), us[k])
  {
    hide Offset;
    hide Holds;
    FixedOffset(us, k, n, k);
    var ts := FixedTo(us, k, n);
    assert Holds(s, Offset(ts, k), ts[k]);
  }

  lemma FixRead(b: Blob, us: seq<Token>, k: nat, n: nat)
    requires StructOk(b) && k < |us| && Laid(StructOf(b), FixedTo(us, k, n))
    ensures NextTag(StructOf(b), Offset(us, k)) == Step(TagOf(us[k]), Offset(us, k + 1))
    ensures Offset(us, k) + Used(us[k]) <= b.h.sizeStruct
    ensures us[k].Prop? ==> us[k].nameoff == WordAt(b, Offset(us, k) + 8)
  {
    hide Word;
    FixHolds(StructOf(b), us, k, n);
    hide Laid;
    hide FixedTo;
    ReadsToken(StructOf(b), Offset(us, k), us[k]);
    if us[k].Prop? { WordInBlock(b, Offset(us, k) + 8); }
  }

  lemma FixPatched(b: Blob, b': Blob, us: seq<Token>, k: nat, n: nat, v: nat)
    requires StructOk(b) && b'.h == b.h && k < |us| && us[k].Prop? && Laid(StructOf(b), FixedTo(us, k, n))
    requires v == (us[k].nameoff + n) % U32 && Offset(us, k) + 12 <= b.h.sizeStruct
    requires Patched(b.mem, b'.mem, b.h.offStruct + Offset(us, k) + 8, WordBytes(v))
    ensures StructOk(b') && Laid(StructOf(b'), FixedTo(us, k + 1, n))
  {
    hide Offset;
    hide Laid;
    hide WordBytes;
    PatchedLength(b.mem, b'.mem, b.h.offStruct + Offset(us, k) + 8, WordBytes(v));
    hide Patched;
    FixedOffset(us, k, n, k);
    var ts, base := FixedTo(us, k, n), b.h.offStruct;
    PatchedSlice(b.mem, b'.mem, base + Offset(us, k) + 8, WordBytes(v), base, base + b.h.sizeStruct);
    RenameInPlace(StructOf(b), StructOf(b'), ts, k, v);
    assert ts[k := Prop(v, ts[k].value)] == FixedTo(us, k + 1, n);
  }

  /** A finished blob: header and reserve map in order, the structure block ended, every token saying its event. */
  ghost predicate Finished(b: Blob, rsv: seq<Entry>, log: seq<Event>, ts: seq<Token>) {
    && HeaderOk(b.h) && b.h.totalsize <= |b.mem| && RsvReads(b, rsv)
    && EndsOnce(ts) && Laid(StructOf(b), ts) && AllSay(b, log, ts[..|ts| - 1])
  }

  /** Everything written, the end tag too, with the names still counted from the buffer's end. */
  ghost predicate Ended(c: Blob, rsv: seq<Entry>, log: seq<Event>, us: seq<Token>) {
    && StructOk(c) && StringsOk(c) && c.h.magic == SW_MAGIC && RsvReads(c, rsv)
    && EndsOnce(us) && Laid(StructOf(c), us) && AllSay(c, log, us[..|us| - 1])
  }

  lemma EndPut(b: Blob, c: Blob, rsv: seq<Entry>, log: seq<Event>, ts: seq<Token>)
    requires Written(b, log, ts) && RsvReads(b, rsv) && b.h.magic == SW_MAGIC
    requires c.h == b.h.(sizeStruct := b.h.sizeStruct + 4)
    requires c.h.offStruct + c.h.sizeStruct + c.h.sizeStrings <= c.h.totalsize
    requires Patched(b.mem, c.mem, b.h.offStruct + b.h.sizeStruct, WordBytes(9))
    ensures Ended(c, rsv, log, ts + [End])
  {
    hide Laid;
    hide NameAt;
    hide Offset;
    assert TokenBytes(End) == WordBytes(9);
    forall i | 0 <= i < |ts| ensures ts[i] != End { assert Says(b, log[i], ts[i]); }
    LowKept(b, c, rsv, b.h.offStruct + b.h.sizeStruct, WordBytes(9));
    hide RsvReads;
    AppendToken(b, c, log, ts, End);
    assert (ts + [End])[..|ts|] == ts;
  }

  /** The strings copied down to the end of the structure block, which may overlap where they were. */
  lemma StringsMoved(c: Blob, m: seq<Byte>, to: nat)
    requires StructOk(c) && StringsOk(c) && c.h.magic == SW_MAGIC && to == c.h.offStruct + c.h.sizeStruct
    requires to + c.h.sizeStrings <= c.h.totalsize == |c.mem|
    requires Patched(c.mem, m, to, c.mem[c.h.totalsize - c.h.sizeStrings..c.h.totalsize])
    ensures |m| == |c.mem| && m[..to] == c.mem[..to]
    ensures m[c.h.offStruct..to] == StructOf(c) && m[to..to + c.h.sizeStrings] == StringsOf(c)
  {
    SwStrings(c);
    var strs := c.mem[c.h.totalsize - c.h.sizeStrings..c.h.totalsize];
    hide StringsOf;
    assert forall k :: 0 <= k < |strs| ==> m[to..to + |strs|][k] == strs[k];
  }

  lemma BlobFinished(c: Blob, d: Blob, m: seq<Byte>, rsv: seq<Entry>, log: seq<Event>, us: seq<Token>)
    requires Ended(c, rsv, log, us)
    requires c.h.offRsvmap == 48 <= c.h.offStruct && c.h.totalsize == |c.mem| && c.h.version == 17
    requires var to := c.h.offStruct + c.h.sizeStruct;
             && to + c.h.sizeStrings <= c.h.totalsize
             && d.h == c.h.(offStrings := to, totalsize := to + c.h.sizeStrings, lastComp := 16, magic := FDT_MAGIC)
             && |m| == |c.mem| && m[..to] == c.mem[..to] && m[to..to + c.h.sizeStrings] == StringsOf(c)
             && SameOutside(m, d.mem, c.h.offStruct, to)
    requires Laid(d.mem[c.h.offStruct..c.h.offStruct + c.h.sizeStruct], FixedTo(us, |us|, c.h.sizeStrings))
    ensures Finished(d, rsv, log, FixedTo(us, |us|, c.h.sizeStrings))
  {
    hide Laid;
    hide RsvReads;
    hide NameAt;
    var ts, n, top := FixedTo(us, |us|, c.h.sizeStrings), c.h.sizeStrings, c.h.offStruct;
    assert StringsOf(d) == StringsOf(c);
    assert d.mem[..top] == c.mem[..top] by {
      forall j | 0 <= j < top ensures d.mem[j] == c.mem[j] {
        assert m[..top + c.h.sizeStruct][j] == c.mem[..top + c.h.sizeStruct][j];
      }
    }
    RsvKept(c, d, rsv);
    forall i | 0 <= i < |log| ensures Says(d, log[i], ts[..|ts| - 1][i]) {
      assert Says(c, log[i], us[..|us| - 1][i]);
      FixSays(c, d, log[i], us[i]);
    }
  }

  /** A name keeps its place in the strings block: counted from the end before, from the start after. */
  lemma FixSays(c: Blob, d: Blob, e: Event, t: Token)
    requires StringsOk(c) && StringsOk(d) && c.h.magic == SW_MAGIC && d.h.magic == FDT_MAGIC
             && StringsOf(c) == StringsOf(d)
    requires Says(c, e, t)
    ensures Says(d, e, Fix(t, c.h.sizeStrings))
  {
    if e.Property? {
      var i := c.h.sizeStrings + Signed(t.nameoff);
      assert 0 <= i < c.h.sizeStrings;
      hide NameAt;
      assert Signed((t.nameoff + c.h.sizeStrings) % U32) == i;
    }
  }

  // ---------- which runs are accepted ----------

  /** How many nodes a run has left open. */
  function Level(log: seq<Event>): int {
    if log == [] then 0
    else Level(log[..|log| - 1]) + (match log[|log| - 1] case Open(_) => 1 case Close => -1 case Property(_, _) => 0)
  }

  /** The call may come next: nothing after the root is closed, an unnamed root, nothing closed that is not open. */
  ghost predicate Fits(log: seq<Event>, e: Event) {
    && !(0 < |log| && log[|log| - 1].Close? && Level(log) == 0)
    && (e.Open? && Level(log) == 0 ==> e.name == [])
    && (e.Close? ==> 1 <= Level(log))
  }

  /** A well-nested run. */
  ghost predicate Tidy(log: seq<Event>) {
    Level(log) == 0 && forall i :: 0 <= i < |log| ==> Fits(log[..i], log[i])
  }

  lemma {:induction false} LevelIsDepth(b: Blob, log: seq<Event>, ts: seq<Token>)
    requires StringsOk(b) && AllSay(b, log, ts)
    ensures Level(log) == Depth(ts, |ts|)
  {
    hide NameAt;
    if log != [] {
      var n := |log| - 1;
      assert AllSay(b, log[..n], ts[..n]) by {
        forall i | 0 <= i < n ensures Says(b, log[..n][i], ts[..n][i]) { assert Says(b, log[i], ts[i]); }
      }
      LevelIsDepth(b, log[..n], ts[..n]);
      DepthPrefix(ts[..n], ts, n);
      assert Says(b, log[n], ts[n]);
    }
  }

  lemma FitsIsMayFollow(b: Blob, log: seq<Event>, ts: seq<Token>, e: Event, t: Token)
    requires StringsOk(b) && b.h.magic == FDT_MAGIC && AllSay(b, log, ts) && Says(b, e, t)
    ensures MayFollow(b, ts, t) <==>
            Fits(log, e) && (e.Property? || (e.Open? && Level(log) == 0) ==> 0 <= RoProbe(b.h))
  {
    hide NameAt;
    hide RoProbe;
    LevelIsDepth(b, log, ts);
    if 0 < |log| { assert Says(b, log[|log| - 1], ts[|log| - 1]); }
    hide Level;
    hide Depth;
  }

  lemma PartSays(b: Blob, log: seq<Event>, ts: seq<Token>, i: nat)
    requires StringsOk(b) && AllSay(b, log, ts) && i < |log|
    ensures AllSay(b, log[..i], ts[..i]) && Says(b, log[i], ts[i])
  {
    hide Says;
    forall k | 0 <= k < i ensures Says(b, log[..i][k], ts[..i][k]) { assert Says(b, log[k], ts[k]); }
  }

  lemma StepsFit(b: Blob, log: seq<Event>, ts: seq<Token>)
    requires StringsOk(b) && b.h.magic == FDT_MAGIC && AllSay(b, log, ts)
    ensures (forall i :: 0 <= i < |ts| ==> MayFollow(b, ts[..i], ts[i])) <==>
            (forall i :: 0 <= i < |log| ==> Fits(log[..i], log[i])) && (log == [] || 0 <= RoProbe(b.h))
  {
    hide Says;
    SameCount(b, log, ts);
    hide AllSay;
    hide RoProbe;
    forall i | 0 <= i < |log|
      ensures MayFollow(b, ts[..i], ts[i]) <==>
              Fits(log[..i], log[i]) && (log[i].Property? || (log[i].Open? && Level(log[..i]) == 0) ==>
                                         0 <= RoProbe(b.h))
    {
      PartSays(b, log, ts, i);
      FitsIsMayFollow(b, log[..i], ts[..i], log[i], ts[i]);
    }
    hide MayFollow;
    if log != [] {
      assert log[..0] == [] && Level([]) == 0;
      FirstCall(log[0]);
    }
    hide Fits;
  }

  lemma FirstCall(e: Event)
    ensures Fits([], e) ==> e.Property? || e.Open?
  {
  }

  lemma SameCount(b: Blob, log: seq<Event>, ts: seq<Token>)
    requires StringsOk(b) && AllSay(b, log, ts)
    ensures |log| == |ts|
  {
  }

  /** fdt_check_full accepts a finished blob exactly if the run was well nested under one unnamed root (and the blob
  stays short of the largest int). */
  lemma AcceptedIffTidy(b: Blob, rsv: seq<Entry>, log: seq<Event>, ts: seq<Token>)
    requires Finished(b, rsv, log, ts)
    ensures Accepted(b) <==> Tidy(log) && (log == [] || b.h.totalsize < INT_MAX)
  {
    hide Laid;
    hide AllSay;
    hide MayFollow;
    hide EndsRsv;
    var opening := ts[..|ts| - 1];
    StepsFit(b, log, opening);
    LevelIsDepth(b, log, opening);
    EndMayFollow(b, opening);
    hide Level;
    hide Depth;
    hide Fits;
    forall us ensures Complete(b, us) ==> us == ts { if Complete(b, us) { OnlyReading(b, ts, us); } }
    CompleteIs(b, ts);
  }

  lemma EndMayFollow(b: Blob, ts: seq<Token>)
    requires StringsOk(b)
    ensures MayFollow(b, ts, End) <==> Depth(ts, |ts|) == 0
  {
  }

  lemma OnlyReading(b: Blob, ts: seq<Token>, us: seq<Token>)
    requires StructOk(b) && StringsOk(b) && Laid(StructOf(b), ts) && EndsOnce(ts) && Complete(b, us)
    ensures us == ts
  {
    hide MayFollow;
    var n := if |ts| < |us| then |ts| else |us|;
    OneReading(StructOf(b), ts, us, n);
    hide Laid;
    PrefixLast(ts, us, n);
    var opening := us[..|us| - 1];
    forall i | 0 <= i < |us| - 1 ensures us[i] != End { assert us[i] == opening[i]; }
    assert |us| == |ts|;
    assert ts[..n] == ts && us[..n] == us;
  }

  lemma CompleteIs(b: Blob, ts: seq<Token>)
    requires StructOk(b) && StringsOk(b) && EndsOnce(ts) && Laid(StructOf(b), ts)
    ensures var opening := ts[..|ts| - 1];
            Complete(b, ts) <==>
            (forall i :: 0 <= i < |opening| ==> MayFollow(b, opening[..i], opening[i])) && MayFollow(b, opening, End)
  {
    hide MayFollow;
    hide Offset;
    hide Holds;
    var opening := ts[..|ts| - 1];
    forall k | 0 <= k < |opening| ensures Holds(StructOf(b), Offset(opening, k), opening[k]) {
      assert opening[..k] == ts[..k];
      OffsetPrefix(opening, ts, k);
      assert Holds(StructOf(b), Offset(ts, k), ts[k]);
    }
  }

  /** And then every walk over it sees one tree. */
  lemma TidyReads(b: Blob, rsv: seq<Entry>, log: seq<Event>, ts: seq<Token>)
    requires Finished(b, rsv, log, ts) && Tidy(log) && 0 < |log| && log[0].Open? && b.h.totalsize < INT_MAX
    ensures Reads(b, ts)
  {
    hide Laid;
    hide Level;
    hide Fits;
    hide EndsRsv;
    AcceptedIffTidy(b, rsv, log, ts);
    var us :| Complete(b, us);
    OnlyReading(b, ts, us);
    assert Says(b, log[0], ts[..|ts| - 1][0]);
    AcceptedReads(b, ts);
  }
}
