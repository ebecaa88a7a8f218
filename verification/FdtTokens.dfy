/** The structure block of a flattened device tree: big-endian words, tokens, and the byte walk over them. */
module FdtTokens {
  type Byte = x: int | 0 <= x < 256

  const U32: nat := 0x1_0000_0000
  const INT_MAX: nat := 0x7FFF_FFFF

  const BADOFFSET: int := -4
  const NOTFOUND: int := -1
  const TRUNCATED: int := -8
  const BADSTRUCTURE: int := -11

  function Word(s: seq<Byte>, i: nat): (v: nat)
    requires i + 4 <= |s|
    ensures v < U32
  {
    ((s[i] as int * 256 + s[i + 1] as int) * 256 + s[i + 2] as int) * 256 + s[i + 3] as int
  }

  function WordBytes(v: nat): (b: seq<Byte>)
    requires v < U32
    ensures |b| == 4 && Word(b, 0) == v
  {
    var hi, lo := v / 0x1_0000, v % 0x1_0000;
    assert v / 256 % 256 == lo / 256 && v % 256 == lo % 256 && v / 0x100_0000 == hi / 256;
    [v / 0x100_0000, v / 0x1_0000 % 256, v / 256 % 256, v % 256]
  }

  /** The n bytes from i in s are those from i' in s'. */
  ghost predicate Same(s: seq<Byte>, i: nat, s': seq<Byte>, i': nat, n: nat) {
    i + n <= |s| && i' + n <= |s'| && forall j :: i <= j < i + n ==> s[j] == s'[j - i + i']
  }

  lemma SamePart(s: seq<Byte>, i: nat, s': seq<Byte>, i': nat, n: nat, a: nat, m: nat)
    requires Same(s, i, s', i', n) && a + m <= n
    ensures Same(s, i + a, s', i' + a, m) && s[i + a..i + a + m] == s'[i' + a..i' + a + m]
  {
    var p, q := s[i + a..i + a + m], s'[i' + a..i' + a + m];
    forall k | 0 <= k < m ensures p[k] == q[k] {
      assert s[i + a + k] == s'[i' + a + k];
    }
  }

  lemma WordLocal(s: seq<Byte>, i: nat, s': seq<Byte>, i': nat)
    requires Same(s, i, s', i', 4)
    ensures Word(s, i) == Word(s', i')
  {
  }

  /** Rounded up to a multiple of the tag size. */
  function Aligned(n: nat): (m: nat)
    ensures n <= m < n + 4 && m % 4 == 0 && (n % 4 == 0 ==> m == n)
  {
    (n + 3) / 4 * 4
  }

  // ---------- tokens ----------

  datatype Token = BeginNode(name: seq<Byte>) | EndNode | Prop(nameoff: nat, value: seq<Byte>) | Nop | End

  function TagOf(t: Token): nat {
    match t case BeginNode(_) => 1 case EndNode => 2 case Prop(_, _) => 3 case Nop => 4 case End => 9
  }

  /** Bytes a token needs, and bytes it takes up. */
  function Used(t: Token): nat {
    match t case BeginNode(name) => 4 + |name| + 1 case Prop(_, value) => 12 + |value| case _ => 4
  }

  function Size(t: Token): (n: nat)
    ensures Used(t) <= n < Used(t) + 4 && 4 <= n && n % 4 == 0
  {
    Aligned(Used(t))
  }

  /** The bytes at off are token t; padding may be anything. */
  ghost predicate Holds(s: seq<Byte>, off: nat, t: Token) {
    && off + Used(t) <= |s|
    && Word(s, off) == TagOf(t)
    && match t
       case BeginNode(name) => 0 !in name && s[off + 4..off + 4 + |name|] == name && s[off + 4 + |name|] == 0
       case Prop(nameoff, value) =>
         Word(s, off + 4) == |value| && Word(s, off + 8) == nameoff && s[off + 12..off + 12 + |value|] == value
       case _ => true
  }

  /** Only the token's own bytes matter, wherever they lie. */
  lemma HoldsLocal(s: seq<Byte>, off: nat, s': seq<Byte>, off': nat, t: Token)
    requires Holds(s, off, t)
    requires Same(s, off, s', off', Used(t))
    ensures Holds(s', off', t)
  {
    hide Word;
    var n := Used(t);
    SamePart(s, off, s', off', n, 0, 4);
    WordLocal(s, off, s', off');
    match t
    case BeginNode(name) =>
      SamePart(s, off, s', off', n, 4, |name|);
    case Prop(_, value) =>
      SamePart(s, off, s', off', n, 4, 4);
      SamePart(s, off, s', off', n, 8, 4);
      SamePart(s, off, s', off', n, 12, |value|);
      WordLocal(s, off + 4, s', off' + 4);
      WordLocal(s, off + 8, s', off' + 8);
    case _ =>
  }

  // ---------- reading one tag ----------

  /** What fdt_next_tag reports: a tag and where the next one starts, or the end tag and a negative error. */
  datatype Step = Step(tag: nat, next: int)

  function NulFrom(s: seq<Byte>, i: nat): (e: nat)
    requires i <= |s|
    ensures i <= e <= |s| && NoNul(s, i, e) && (e < |s| ==> s[e] == 0)
    decreases |s| - i
  {
    if i == |s| || s[i] == 0 then i else NulFrom(s, i + 1)
  }

  predicate NoNul(s: seq<Byte>, i: nat, e: nat)
    requires i <= e <= |s|
  {
    forall j :: i <= j < e ==> s[j] != 0
  }

  function NextTag(s: seq<Byte>, off: int): Step {
    if off < 0 || off + 4 > |s| then Step(9, TRUNCATED)
    else
      match Word(s, off)
      case 1 =>
        var e := NulFrom(s, off + 4);
        if e == |s| then Step(9, BADSTRUCTURE) else Step(1, Aligned(e + 1))
      case 3 =>
        if off + 8 > |s| || off + 12 + Word(s, off + 4) > |s| then Step(9, BADSTRUCTURE)
        else Step(3, Aligned(off + 12 + Word(s, off + 4)))
      case 2 => Step(2, Aligned(off + 4))
      case 4 => Step(4, Aligned(off + 4))
      case 9 => Step(9, Aligned(off + 4))
      case _ => Step(9, BADSTRUCTURE)
  }

  /** Every tag read moves strictly forward, to an aligned place. */
  lemma MovesForward(s: seq<Byte>, off: int)
    ensures NextTag(s, off).next < 0 || (0 <= off && off + 4 <= NextTag(s, off).next && NextTag(s, off).next % 4 == 0)
    ensures NextTag(s, off).next <= |s| + 3
    ensures NextTag(s, off).next < 0 ==> NextTag(s, off).tag == 9
  {
  }

  /** A token in place is read as its tag and skipped exactly. */
  lemma ReadsToken(s: seq<Byte>, off: nat, t: Token)
    requires Holds(s, off, t) && off % 4 == 0
    ensures NextTag(s, off) == Step(TagOf(t), off + Size(t))
  {
    hide Word;
    AlignedSum(off, Used(t));
    match t
    case BeginNode(name) => NameHasNoNul(s, off + 4, name); FirstNul(s, off + 4, off + 4 + |name|);
    case _ =>
  }

  lemma AlignedSum(off: nat, n: nat)
    requires off % 4 == 0
    ensures Aligned(off + n) == off + Aligned(n)
  {
  }

  lemma FirstNul(s: seq<Byte>, i: nat, e: nat)
    requires i <= e < |s| && NoNul(s, i, e) && s[e] == 0
    ensures NulFrom(s, i) == e
  {
    var f := NulFrom(s, i);
    assert f <= e;
  }

  lemma NameHasNoNul(s: seq<Byte>, i: nat, name: seq<Byte>)
    requires i + |name| <= |s| && s[i..i + |name|] == name
    ensures 0 !in name <==> NoNul(s, i, i + |name|)
  {
    forall j | i <= j < i + |name| ensures s[j] == name[j - i] {}
    forall k | 0 <= k < |name| ensures name[k] == s[i + k] {}
  }

  /** The token at an offset whose tag was read without error. */
  function TokenAt(s: seq<Byte>, off: nat): Token
    requires 0 <= NextTag(s, off).next
  {
    match NextTag(s, off).tag
    case 1 => BeginNode(s[off + 4..NulFrom(s, off + 4)])
    case 3 => Prop(Word(s, off + 8), s[off + 12..off + 12 + Word(s, off + 4)])
    case 2 => EndNode
    case 4 => Nop
    case _ => End
  }

  lemma TokenThere(s: seq<Byte>, off: nat)
    requires 0 <= NextTag(s, off).next
    ensures Holds(s, off, TokenAt(s, off))
  {
    hide Word;
    if NextTag(s, off).tag == 1 { NameHasNoNul(s, off + 4, TokenAt(s, off).name); }
  }

  /** An offset holds at most one token. */
  lemma OneToken(s: seq<Byte>, off: nat, t: Token)
    requires Holds(s, off, t) && off % 4 == 0
    ensures 0 <= NextTag(s, off).next && TokenAt(s, off) == t
  {
    hide Word;
    ReadsToken(s, off, t);
    match t
    case BeginNode(name) => NameHasNoNul(s, off + 4, name); FirstNul(s, off + 4, off + 4 + |name|);
    case _ =>
  }

  // ---------- a block of tokens ----------

  function Offset(ts: seq<Token>, k: nat): (n: nat)
    requires k <= |ts|
    ensures n % 4 == 0 && 4 * k <= n
  {
    if k == 0 then 0 else Offset(ts, k - 1) + Size(ts[k - 1])
  }

  /** The block reads as these tokens, from its start. */
  ghost predicate Laid(s: seq<Byte>, ts: seq<Token>) {
    forall k :: 0 <= k < |ts| ==> Holds(s, Offset(ts, k), ts[k])
  }

  lemma {:induction false} OffsetGrows(ts: seq<Token>, i: nat, j: nat)
    requires i < j <= |ts|
    ensures Offset(ts, i) + Size(ts[i]) <= Offset(ts, j)
    decreases j
  {
    if i < j - 1 { OffsetGrows(ts, i, j - 1); }
  }

  lemma {:induction false} OffsetPrefix(ts: seq<Token>, us: seq<Token>, k: nat)
    requires k <= |ts| && k <= |us| && ts[..k] == us[..k]
    ensures Offset(ts, k) == Offset(us, k)
  {
    if k > 0 {
      assert ts[k - 1] == ts[..k][k - 1] == us[k - 1];
      assert ts[..k - 1] == ts[..k][..k - 1] == us[..k - 1];
      OffsetPrefix(ts, us, k - 1);
    }
  }

  /** Two readings of one block agree as far as both go. */
  lemma {:induction false} OneReading(s: seq<Byte>, ts: seq<Token>, us: seq<Token>, k: nat)
    requires Laid(s, ts) && Laid(s, us) && k <= |ts| && k <= |us|
    ensures ts[..k] == us[..k]
  {
    hide Holds;
    hide Offset;
    if k > 0 {
      OneReading(s, ts, us, k - 1);
      OffsetPrefix(ts, us, k - 1);
      assert Holds(s, Offset(ts, k - 1), ts[k - 1]) && Holds(s, Offset(us, k - 1), us[k - 1]);
      OneToken(s, Offset(ts, k - 1), ts[k - 1]);
      OneToken(s, Offset(us, k - 1), us[k - 1]);
      assert ts[..k] == ts[..k - 1] + [ts[k - 1]];
      assert us[..k] == us[..k - 1] + [us[k - 1]];
    }
  }
}
