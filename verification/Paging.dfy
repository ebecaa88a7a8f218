/** The four-level translation table and the physical pages it is built from.

Physical memory is a map from page frame numbers to pages of 512 words.  The free pages form a stack
threaded through their own first words; table pages are taken from that stack.  The model shows that
the table, read as the translation hardware reads it, is exactly the page-to-frame map that the
calls so far describe.
*/
module Paging {
  import opened Common
  import opened Descriptors

  type Ram = map<nat, seq<nat>>

  // ---------- the tree of tables ----------

  /** A table is named by its level and by its number among the possible tables of that level. */
  datatype Key = Key(level: nat, n: nat)

  const ROOT := Key(0, 0)

  function Child(k: Key, i: nat): Key { Key(k.level + 1, k.n * 512 + i) }

  function Parent(k: Key): Key
    requires 0 < k.level
  {
    Key(k.level - 1, k.n / 512)
  }

  /** The key of the level-3 table that holds page v's entry. */
  function LeafTable(v: nat): Key { Key(3, v / 0x200) }

  ghost predicate KeyOk(ram: Ram, tables: map<Key, nat>, k: Key)
    requires k in tables
  {
    && k.level <= 3 && (k.level == 0 ==> k == ROOT) && (0 < k.level ==> Parent(k) in tables)
    && tables[k] in ram && |ram[tables[k]]| == 512
  }

  function LeafWord(flat: map<nat, Leaf>, v: nat): nat {
    if v in flat then Encode(flat[v]) else 0
  }

  /** An entry of an inner table links the child table, if there is one, and is otherwise zero; an
      entry of a last-level table describes its page, if mapped, and is otherwise zero. */
  ghost predicate EntryOk(ram: Ram, tables: map<Key, nat>, flat: map<nat, Leaf>, k: Key, i: nat)
    requires k in tables && tables[k] in ram && i < |ram[tables[k]]|
  {
    var w := ram[tables[k]][i];
    if k.level < 3 then
      w == if Child(k, i) in tables then TableWord(tables[Child(k, i)]) else 0
    else
      w == LeafWord(flat, k.n * 512 + i)
  }

  ghost predicate Unshared(tables: map<Key, nat>) {
    forall k, k' :: k in tables && k' in tables && tables[k] == tables[k'] ==> k == k'
  }

  /** Only pages that have a table to sit in are mapped. */
  ghost predicate FlatOk(tables: map<Key, nat>, flat: map<nat, Leaf>) {
    forall v :: v in flat ==> v < FRAMES && LeafOk(flat[v]) && LeafTable(v) in tables
  }

  ghost predicate FramesOk(ram: Ram) {
    forall p :: p in ram ==> p < FRAMES && |ram[p]| == 512
  }

  ghost predicate TreeOk(ram: Ram, tables: map<Key, nat>, flat: map<nat, Leaf>) {
    && FramesOk(ram) && ROOT in tables && Unshared(tables) && FlatOk(tables, flat)
    && (forall k :: k in tables ==> KeyOk(ram, tables, k))
    && (forall k, i :: k in tables && 0 <= i < 512 ==> EntryOk(ram, tables, flat, k, i))
  }

  // ---------- the walk the hardware makes ----------

  /** Follow one table descriptor: bits 0 and 1 set, frame in bits 12 to 47. */
  function Follow(ram: Ram, p: nat, i: nat): Option<nat> {
    if p in ram && i < |ram[p]| && Field(ram[p][i], 1, 4) == 3 then Some(Field(ram[p][i], 0x1000, FRAMES)) else None
  }

  function ReadLeaf(ram: Ram, p: nat, i: nat): Option<Leaf> {
    if p in ram && i < |ram[p]| && Field(ram[p][i], 1, 4) == 3 then Some(Decode(ram[p][i])) else None
  }

  /** The walk from the table at frame p of each level down to the leaf. */
  function Walk3(ram: Ram, p: nat, va: nat): Option<Leaf> {
    ReadLeaf(ram, p, Index3(va))
  }

  function Walk2(ram: Ram, p: nat, va: nat): Option<Leaf> {
    match Follow(ram, p, Index2(va)) case None => None case Some(q) => Walk3(ram, q, va)
  }

  function Walk1(ram: Ram, p: nat, va: nat): Option<Leaf> {
    match Follow(ram, p, Index1(va)) case None => None case Some(q) => Walk2(ram, q, va)
  }

  function Translate(ram: Ram, root: nat, va: nat): Option<Leaf> {
    match Follow(ram, root, Index0(va)) case None => None case Some(q) => Walk1(ram, q, va)
  }

  /** Key and index at each level of the walk for va. */
  lemma WalkKeys(va: nat)
    ensures var v := Vpn(va);
            && Child(ROOT, Index0(va)) == Key(1, v / 0x800_0000)
            && Child(Key(1, v / 0x800_0000), Index1(va)) == Key(2, v / 0x4_0000)
            && Child(Key(2, v / 0x4_0000), Index2(va)) == LeafTable(v)
            && v / 0x200 * 512 + Index3(va) == v
    ensures Index0(va) < 512 && Index1(va) < 512 && Index2(va) < 512 && Index3(va) < 512
  {
    var v := Vpn(va);
    IndicesSpellVpn(va);
    DivDiv(v, 0x4_0000, 512);
    DivDiv(v, 0x200, 512);
    Split(v, 512);
    Split(v / 0x200, 512);
    Split(v / 0x4_0000, 512);
  }

  lemma ZeroWord()
    ensures Field(0, 1, 4) == 0 && Field(0, 1, 2) == 0 && Field(0, 0x1000, FRAMES) == 0
  {
    FieldOf(0, 1, 0, 4, 0);
    FieldOf(0, 1, 0, 2, 0);
    FieldOf(0, 0x1000, 0, FRAMES, 0);
  }

  lemma FollowIsChild(ram: Ram, tables: map<Key, nat>, flat: map<nat, Leaf>, k: Key, i: nat)
    requires TreeOk(ram, tables, flat) && k in tables && k.level < 3 && i < 512
    ensures Follow(ram, tables[k], i) == if Child(k, i) in tables then Some(tables[Child(k, i)]) else None
  {
    assert KeyOk(ram, tables, k) && EntryOk(ram, tables, flat, k, i);
    if Child(k, i) in tables {
      assert KeyOk(ram, tables, Child(k, i));
      ReadTable(tables[Child(k, i)]);
    } else {
      ZeroWord();
    }
  }

  lemma ReadEncoded(ram: Ram, p: nat, i: nat, e: Leaf)
    requires LeafOk(e) && p in ram && i < |ram[p]| && ram[p][i] == Encode(e)
    ensures ReadLeaf(ram, p, i) == Some(e)
  {
    DecodeEncode(e);
    EncodeValid(e);
  }

  lemma ReadZero(ram: Ram, p: nat, i: nat)
    requires p in ram && i < |ram[p]| && ram[p][i] == 0
    ensures ReadLeaf(ram, p, i) == None
  {
    ZeroWord();
  }

  lemma ReadIsFlat(ram: Ram, tables: map<Key, nat>, flat: map<nat, Leaf>, k: Key, i: nat)
    requires TreeOk(ram, tables, flat) && k in tables && k.level == 3 && i < 512
    ensures ReadLeaf(ram, tables[k], i) == InFlat(flat, k.n * 512 + i)
  {
    hide TreeOk;
    hide Encode;
    hide ReadLeaf;
    var v := k.n * 512 + i;
    LastEntry(ram, tables, flat, k, i);
    if v in flat {
      MappedTable(ram, tables, flat, v);
      ReadEncoded(ram, tables[k], i, flat[v]);
    } else {
      ReadZero(ram, tables[k], i);
    }
  }

  /** A page in flat has every table on its path. */
  lemma PathExists(ram: Ram, tables: map<Key, nat>, flat: map<nat, Leaf>, va: nat)
    requires TreeOk(ram, tables, flat) && LeafTable(Vpn(va)) in tables
    ensures var v := Vpn(va); Key(1, v / 0x800_0000) in tables && Key(2, v / 0x4_0000) in tables
  {
    var v := Vpn(va);
    WalkKeys(va);
    ParentOfChild(Key(2, v / 0x4_0000), Index2(va));
    assert KeyOk(ram, tables, LeafTable(v));
    ParentOfChild(Key(1, v / 0x800_0000), Index1(va));
    assert KeyOk(ram, tables, Key(2, v / 0x4_0000));
  }

  lemma ParentOfChild(k: Key, i: nat)
    requires i < 512
    ensures Parent(Child(k, i)) == k
  {
    DivOf(i, k.n, 512);
  }

  function InFlat(flat: map<nat, Leaf>, v: nat): Option<Leaf> {
    if v in flat then Some(flat[v]) else None
  }

  lemma Walk2IsFlat(ram: Ram, tables: map<Key, nat>, flat: map<nat, Leaf>, va: nat)
    requires TreeOk(ram, tables, flat) && Key(2, Vpn(va) / 0x4_0000) in tables
    ensures Walk2(ram, tables[Key(2, Vpn(va) / 0x4_0000)], va) == InFlat(flat, Vpn(va))
  {
    hide TreeOk;
    hide Follow;
    hide Vpn;
    hide Index0;
    hide Index1;
    hide Index2;
    hide Index3;
    hide Child;
    hide ReadLeaf;
    WalkKeys(va);
    FollowIsChild(ram, tables, flat, Key(2, Vpn(va) / 0x4_0000), Index2(va));
    if LeafTable(Vpn(va)) in tables {
      ReadIsFlat(ram, tables, flat, LeafTable(Vpn(va)), Index3(va));
    } else if Vpn(va) in flat {
      MappedTable(ram, tables, flat, Vpn(va));
    }
  }

  lemma Walk1IsFlat(ram: Ram, tables: map<Key, nat>, flat: map<nat, Leaf>, va: nat)
    requires TreeOk(ram, tables, flat) && Key(1, Vpn(va) / 0x800_0000) in tables
    ensures Walk1(ram, tables[Key(1, Vpn(va) / 0x800_0000)], va) == InFlat(flat, Vpn(va))
  {
    hide TreeOk;
    hide Follow;
    hide Vpn;
    hide Index0;
    hide Index1;
    hide Index2;
    hide Index3;
    hide Child;
    hide Walk2;
    WalkKeys(va);
    FollowIsChild(ram, tables, flat, Key(1, Vpn(va) / 0x800_0000), Index1(va));
    if Key(2, Vpn(va) / 0x4_0000) in tables {
      Walk2IsFlat(ram, tables, flat, va);
    } else if Vpn(va) in flat {
      MappedTable(ram, tables, flat, Vpn(va));
      PathExists(ram, tables, flat, va);
    }
  }

  /** The table is the flat map: every address translates to exactly what was mapped for its page. */
  lemma TranslateIsFlat(ram: Ram, tables: map<Key, nat>, flat: map<nat, Leaf>, va: nat)
    requires TreeOk(ram, tables, flat)
    ensures Translate(ram, tables[ROOT], va) == InFlat(flat, Vpn(va))
  {
    hide TreeOk;
    hide Follow;
    hide Vpn;
    hide Index0;
    hide Index1;
    hide Index2;
    hide Index3;
    hide Child;
    hide Walk1;
    RootOf(ram, tables, flat);
    WalkKeys(va);
    FollowIsChild(ram, tables, flat, ROOT, Index0(va));
    if Key(1, Vpn(va) / 0x800_0000) in tables {
      Walk1IsFlat(ram, tables, flat, va);
    } else if Vpn(va) in flat {
      MappedTable(ram, tables, flat, Vpn(va));
      PathExists(ram, tables, flat, va);
    }
  }

  /** The last-level word that the walk for va comes to. */
  function LastWord(ram: Ram, root: nat, va: nat): Option<nat> {
    match Follow(ram, root, Index0(va)) case None => None case Some(p) =>
    match Follow(ram, p, Index1(va)) case None => None case Some(q) =>
    match Follow(ram, q, Index2(va)) case None => None case Some(r) =>
    if r in ram && Index3(va) < |ram[r]| then Some(ram[r][Index3(va)]) else None
  }

  /** For a mapped page it is the descriptor of what was mapped. */
  lemma WordIsFlat(ram: Ram, tables: map<Key, nat>, flat: map<nat, Leaf>, va: nat)
    requires TreeOk(ram, tables, flat) && Vpn(va) in flat
    ensures LastWord(ram, tables[ROOT], va) == Some(Encode(flat[Vpn(va)]))
  {
    hide Encode;
    hide TreeOk;
    hide Follow;
    hide Vpn;
    hide Index0;
    hide Index1;
    hide Index2;
    hide Index3;
    hide Child;
    var v := Vpn(va);
    RootOf(ram, tables, flat);
    MappedTable(ram, tables, flat, v);
    WalkKeys(va);
    PathExists(ram, tables, flat, va);
    FollowIsChild(ram, tables, flat, ROOT, Index0(va));
    FollowIsChild(ram, tables, flat, Key(1, v / 0x800_0000), Index1(va));
    FollowIsChild(ram, tables, flat, Key(2, v / 0x4_0000), Index2(va));
    LastEntry(ram, tables, flat, LeafTable(v), Index3(va));
  }

  lemma RootOf(ram: Ram, tables: map<Key, nat>, flat: map<nat, Leaf>)
    requires TreeOk(ram, tables, flat)
    ensures ROOT in tables
  {
  }

  lemma MappedTable(ram: Ram, tables: map<Key, nat>, flat: map<nat, Leaf>, v: nat)
    requires TreeOk(ram, tables, flat) && v in flat
    ensures LeafTable(v) in tables && LeafOk(flat[v])
  {
  }

  lemma LastEntry(ram: Ram, tables: map<Key, nat>, flat: map<nat, Leaf>, k: Key, i: nat)
    requires TreeOk(ram, tables, flat) && k in tables && k.level == 3 && i < 512
    ensures tables[k] in ram && |ram[tables[k]]| == 512 && ram[tables[k]][i] == LeafWord(flat, k.n * 512 + i)
  {
    assert KeyOk(ram, tables, k) && EntryOk(ram, tables, flat, k, i);
  }

  // ---------- editing the tree ----------

  function Poke(ram: Ram, p: nat, i: nat, w: nat): Ram
    requires p in ram && i < |ram[p]|
  {
    var page: seq<nat> := ram[p][i := w];
    ram[p := page]
  }

  function ZeroPage(): (z: seq<nat>)
    ensures |z| == 512 && forall i :: 0 <= i < 512 ==> z[i] == 0
  {
    seq(512, i => 0)
  }

  lemma NothingBelow(ram: Ram, tables: map<Key, nat>, flat: map<nat, Leaf>, c: Key, j: nat)
    requires TreeOk(ram, tables, flat) && c !in tables && j < 512
    ensures Child(c, j) !in tables && (c.level == 3 ==> c.n * 512 + j !in flat)
  {
    ParentOfChild(c, j);
    DivOf(j, c.n, 512);
    assert Child(c, j) in tables ==> KeyOk(ram, tables, Child(c, j));
  }

  ghost predicate CanLink(ram: Ram, tables: map<Key, nat>, flat: map<nat, Leaf>, k: Key, i: nat, p: nat) {
    && TreeOk(ram, tables, flat) && k in tables && k.level < 3 && i < 512 && Child(k, i) !in tables
    && p in ram && ram[p] == ZeroPage() && p !in tables.Values
    && tables[k] in ram && |ram[tables[k]]| == 512
  }

  lemma ChildInjective(k: Key, i: nat, x: Key, j: nat)
    requires i < 512 && j < 512
    ensures Child(k, i) == Child(x, j) <==> k == x && i == j
  {
    DivOf(i, k.n, 512);
    DivOf(j, x.n, 512);
  }

  lemma LinkEntry(ram: Ram, tables: map<Key, nat>, flat: map<nat, Leaf>, k: Key, i: nat, p: nat, x: Key, j: nat)
    requires k in tables && x in tables && k.level < 3 && i < 512 && j < 512 && Child(k, i) !in tables
    requires tables[k] in ram && |ram[tables[k]]| == 512 && tables[x] in ram && |ram[tables[x]]| == 512
    requires EntryOk(ram, tables, flat, x, j) && (tables[x] == tables[k] ==> x == k)
    ensures EntryOk(Poke(ram, tables[k], i, TableWord(p)), tables[Child(k, i) := p], flat, x, j)
  {
    ChildInjective(k, i, x, j);
  }

  lemma LinkEntries(ram: Ram, tables: map<Key, nat>, flat: map<nat, Leaf>, k: Key, i: nat, p: nat, x: Key, j: nat)
    requires CanLink(ram, tables, flat, k, i, p) && (x in tables || x == Child(k, i)) && j < 512
    ensures var ram', tables' := Poke(ram, tables[k], i, TableWord(p)), tables[Child(k, i) := p];
            KeyOk(ram', tables', x) && EntryOk(ram', tables', flat, x, j)
  {
    var c := Child(k, i);
    if x == c {
      ParentOfChild(k, i);
      NothingBelow(ram, tables, flat, c, j);
      ChildInjective(c, j, k, i);
    } else {
      assert KeyOk(ram, tables, x) && EntryOk(ram, tables, flat, x, j);
      LinkEntry(ram, tables, flat, k, i, p, x, j);
    }
  }

  /** Linking a zeroed page, so far no table, as the child of entry i of table k. */
  lemma LinkKeepsTree(ram: Ram, tables: map<Key, nat>, flat: map<nat, Leaf>, k: Key, i: nat, p: nat)
    requires CanLink(ram, tables, flat, k, i, p)
    ensures TreeOk(Poke(ram, tables[k], i, TableWord(p)), tables[Child(k, i) := p], flat)
  {
    var ram' := Poke(ram, tables[k], i, TableWord(p));
    var tables' := tables[Child(k, i) := p];
    forall x, j | x in tables' && 0 <= j < 512 ensures KeyOk(ram', tables', x) && EntryOk(ram', tables', flat, x, j) {
      LinkEntries(ram, tables, flat, k, i, p, x, j);
    }
    forall x | x in tables' ensures KeyOk(ram', tables', x) {
      LinkEntries(ram, tables, flat, k, i, p, x, 0);
    }
  }

  /** flat' is flat, changed at most at page v. */
  ghost predicate OnlyAt(flat: map<nat, Leaf>, flat': map<nat, Leaf>, v: nat) {
    forall u :: u != v ==> (u in flat' <==> u in flat) && (u in flat ==> flat'[u] == flat[u])
  }

  ghost predicate CanWrite(ram: Ram, tables: map<Key, nat>, flat: map<nat, Leaf>, flat': map<nat, Leaf>, v: nat) {
    && TreeOk(ram, tables, flat) && LeafTable(v) in tables
    && tables[LeafTable(v)] in ram && |ram[tables[LeafTable(v)]]| == 512
    && OnlyAt(flat, flat', v) && FlatOk(tables, flat')
  }

  lemma WriteEntry(ram: Ram, tables: map<Key, nat>, flat: map<nat, Leaf>, flat': map<nat, Leaf>, v: nat, x: Key, j: nat)
    requires x in tables && x.level <= 3 && LeafTable(v) in tables && j < 512 && OnlyAt(flat, flat', v)
    requires tables[x] in ram && |ram[tables[x]]| == 512
    requires tables[LeafTable(v)] in ram && |ram[tables[LeafTable(v)]]| == 512
    requires EntryOk(ram, tables, flat, x, j) && (tables[x] == tables[LeafTable(v)] ==> x == LeafTable(v))
    requires x.level == 3 ==> (x.n * 512 + j == v <==> x == LeafTable(v) && j == v % 512)
    ensures EntryOk(Poke(ram, tables[LeafTable(v)], v % 512, LeafWord(flat', v)), tables, flat', x, j)
  {
    var u := x.n * 512 + j;
    var p, w := tables[LeafTable(v)], LeafWord(flat', v);
    var ram' := Poke(ram, p, v % 512, w);
    if x == LeafTable(v) && j == v % 512 {
      assert ram'[tables[x]][j] == w;
      assert x.level == 3 && u == v;
    } else {
      assert ram'[tables[x]][j] == ram[tables[x]][j];
      assert x.level < 3 || u != v;
    }
  }

  lemma LeafPosition(v: nat, x: Key, j: nat)
    requires j < 512 && x.level == 3
    ensures x.n * 512 + j == v <==> x == LeafTable(v) && j == v % 512
  {
    Split(v, 512);
    DivOf(j, x.n, 512);
  }

  /** Writing the entry of page v: only that page's translation changes. */
  lemma WriteKeepsTree(ram: Ram, tables: map<Key, nat>, flat: map<nat, Leaf>, flat': map<nat, Leaf>, v: nat)
    requires CanWrite(ram, tables, flat, flat', v)
    ensures TreeOk(Poke(ram, tables[LeafTable(v)], v % 512, LeafWord(flat', v)), tables, flat')
  {
    var ram' := Poke(ram, tables[LeafTable(v)], v % 512, LeafWord(flat', v));
    forall x | x in tables ensures KeyOk(ram', tables, x) {
      assert KeyOk(ram, tables, x);
    }
    forall x, j | x in tables && 0 <= j < 512 ensures EntryOk(ram', tables, flat', x, j) {
      assert KeyOk(ram, tables, x) && EntryOk(ram, tables, flat, x, j);
      if x.level == 3 {
        LeafPosition(v, x, j);
      }
      WriteEntry(ram, tables, flat, flat', v, x, j);
    }
  }
}
