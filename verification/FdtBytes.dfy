/** Stores into a blob's buffer, memmove, and the search of a strings block. */
module FdtBytes {
  import opened Common
  import opened FdtTokens
  import opened FdtCheck

  /** m' is m with bytes written at a place. */
  ghost predicate Patched(m: seq<Byte>, m': seq<Byte>, at: nat, bytes: seq<Byte>) {
    && |m'| == |m| && at + |bytes| <= |m|
    && forall j :: 0 <= j < |m| ==> m'[j] == if at <= j < at + |bytes| then bytes[j - at] else m[j]
  }

  lemma PatchedTwice(m: seq<Byte>, m1: seq<Byte>, m2: seq<Byte>, at: nat, a: seq<Byte>, c: seq<Byte>)
    requires Patched(m, m1, at, a) && Patched(m1, m2, at + |a|, c)
    ensures Patched(m, m2, at, a + c)
  {
  }

  /** Bytes away from the patch are as before. */
  lemma PatchKeeps(m: seq<Byte>, m': seq<Byte>, at: nat, bytes: seq<Byte>, lo: nat, hi: nat)
    requires Patched(m, m', at, bytes) && lo <= hi <= |m| && (hi <= at || at + |bytes| <= lo)
    ensures m'[lo..hi] == m[lo..hi]
  {
  }

  /** The same patch, seen in a block that contains it. */
  lemma PatchedSlice(m: seq<Byte>, m': seq<Byte>, at: nat, bytes: seq<Byte>, lo: nat, hi: nat)
    requires Patched(m, m', at, bytes) && lo <= at && at + |bytes| <= hi <= |m|
    ensures Patched(m[lo..hi], m'[lo..hi], at - lo, bytes)
  {
  }

  lemma SliceFront(m: seq<Byte>, lo: nat, mid: nat, hi: nat)
    requires lo <= mid <= hi <= |m|
    ensures m[lo..hi][..mid - lo] == m[lo..mid]
  {
  }

  method PutBytes(buf: array<Byte>, at: nat, bytes: seq<Byte>)
    requires at + |bytes| <= buf.Length
    modifies buf
    ensures Patched(old(buf[..]), buf[..], at, bytes)
  {
    var k := 0;
    while k < |bytes|
      invariant k <= |bytes|
      invariant forall j :: 0 <= j < buf.Length ==> buf[j] == if at <= j < at + k then bytes[j - at] else old(buf[j])
    {
      buf[at + k] := bytes[k];
      k := k + 1;
    }
  }

  /** memmove within one buffer: the bytes arrive as they were, even where source and target overlap. */
  method MoveBytes(buf: array<Byte>, dest: nat, src: nat, len: nat)
    requires dest + len <= buf.Length && src + len <= buf.Length
    modifies buf
    ensures Patched(old(buf[..]), buf[..], dest, old(buf[src..src + len]))
  {
    if dest < src {
      var k := 0;
      while k < len
        invariant k <= len
        invariant forall j :: 0 <= j < buf.Length ==>
                    buf[j] == if dest <= j < dest + k then old(buf[j - dest + src]) else old(buf[j])
      {
        buf[dest + k] := buf[src + k];
        k := k + 1;
      }
    } else {
      var k := len;
      while k > 0
        invariant 0 <= k <= len
        invariant forall j :: 0 <= j < buf.Length ==>
                    buf[j] == if dest + k <= j < dest + len then old(buf[j - dest + src]) else old(buf[j])
      {
        k := k - 1;
        buf[dest + k] := buf[src + k];
      }
    }
  }

  /** The bytes of a token, without padding. */
  function TokenBytes(t: Token): (b: seq<Byte>)
    requires t.Prop? ==> t.nameoff < U32 && |t.value| < U32
    ensures |b| == Used(t)
  {
    WordBytes(TagOf(t)) +
    match t
    case BeginNode(name) => name + [0]
    case Prop(nameoff, value) => WordBytes(|value|) + WordBytes(nameoff) + value
    case _ => []
  }

  lemma TokenBytesHold(t: Token)
    requires t.Prop? ==> t.nameoff < U32 && |t.value| < U32
    requires t.BeginNode? ==> 0 !in t.name
    ensures Holds(TokenBytes(t), 0, t)
  {
    hide Word;
    var b := TokenBytes(t);
    SubWord(WordBytes(TagOf(t)), b, 0);
    if t.Prop? {
      SubWord(WordBytes(|t.value|), b, 4);
      SubWord(WordBytes(t.nameoff), b, 8);
    }
  }

  lemma SubWord(w: seq<Byte>, b: seq<Byte>, i: nat)
    requires |w| == 4 && i + 4 <= |b| && forall k :: 0 <= k < 4 ==> w[k] == b[i + k]
    ensures Word(b, i) == Word(w, 0)
  {
    WordLocal(w, 0, b, i);
  }

  /** A token written at base + off of the buffer holds at off of the block that starts at base. */
  lemma PatchedHolds(m: seq<Byte>, m': seq<Byte>, base: nat, size: nat, off: nat, t: Token)
    requires t.Prop? ==> t.nameoff < U32 && |t.value| < U32
    requires t.BeginNode? ==> 0 !in t.name
    requires Patched(m, m', base + off, TokenBytes(t)) && off + Used(t) <= size && base + size <= |m'|
    ensures Holds(m'[base..base + size], off, t)
  {
    hide TokenBytes;
    hide Holds;
    TokenBytesHold(t);
    var b, s := TokenBytes(t), m'[base..base + size];
    forall j | 0 <= j < |b| ensures b[j] == s[j - 0 + off] { assert m'[base + off + j] == b[j]; }
    HoldsLocal(b, 0, s, off, t);
  }

  /** The header words and the value of a property. */
  method PutProperty(buf: array<Byte>, at: nat, nameoff: nat, value: seq<Byte>)
    requires at + 12 + |value| <= buf.Length && nameoff < U32 && |value| < U32
    modifies buf
    ensures Patched(old(buf[..]), buf[..], at, TokenBytes(Prop(nameoff, value)))
  {
    hide Patched;
    ghost var m0 := buf[..];
    PutBytes(buf, at, WordBytes(3));
    ghost var m1 := buf[..];
    PutBytes(buf, at + 4, WordBytes(|value|));
    ghost var m2 := buf[..];
    PutBytes(buf, at + 8, WordBytes(nameoff));
    ghost var m3 := buf[..];
    PutBytes(buf, at + 12, value);
    PatchedTwice(m0, m1, m2, at, WordBytes(3), WordBytes(|value|));
    PatchedTwice(m0, m2, m3, at, WordBytes(3) + WordBytes(|value|), WordBytes(nameoff));
    PatchedTwice(m0, m3, buf[..], at, WordBytes(3) + WordBytes(|value|) + WordBytes(nameoff), value);
    assert WordBytes(3) + WordBytes(|value|) + WordBytes(nameoff) + value
        == WordBytes(3) + (WordBytes(|value|) + WordBytes(nameoff) + value);
  }

  lemma PatchedLength(m: seq<Byte>, m': seq<Byte>, at: nat, bytes: seq<Byte>)
    requires Patched(m, m', at, bytes)
    ensures |m'| == |m|
  {
  }

  // ---------- strings ----------

  lemma NameThere(strs: seq<Byte>, i: nat, name: seq<Byte>)
    requires 0 !in name && i + |name| < |strs| && strs[i..i + |name|] == name && strs[i + |name|] == 0
    ensures NameAt(strs, i) == Some(name)
  {
    NameHasNoNul(strs, i, name);
    FirstNul(strs, i, i + |name|);
  }

  /** The strings block holds name at i, terminator included. */
  predicate StringAt(strs: seq<Byte>, i: nat, name: seq<Byte>) {
    i + |name| < |strs| && strs[i..i + |name|] == name && strs[i + |name|] == 0
  }

  lemma NameIsString(strs: seq<Byte>, i: nat, name: seq<Byte>)
    requires 0 !in name
    ensures NameAt(strs, i) == Some(name) <==> StringAt(strs, i, name)
  {
    if StringAt(strs, i, name) { NameThere(strs, i, name); }
  }

  /** fdt_find_string_len_: the first place the name stands whole, or -1 exactly if there is none. */
  method FindString(strs: seq<Byte>, name: seq<Byte>) returns (p: int)
    requires 0 !in name
    ensures if 0 <= p then NameAt(strs, p) == Some(name) && forall i: nat :: i < p ==> NameAt(strs, i) != Some(name)
            else p == -1 && forall i: nat :: NameAt(strs, i) != Some(name)
  {
    hide NameAt;
    var last := |strs| - (|name| + 1);
    forall i: nat ensures NameAt(strs, i) == Some(name) <==> StringAt(strs, i, name) { NameIsString(strs, i, name); }
    p := 0;
    while p <= last
      invariant 0 <= p && forall i: nat :: i < p ==> !StringAt(strs, i, name)
    {
      if strs[p..p + |name|] == name && strs[p + |name|] == 0 {
        return;
      }
      p := p + 1;
    }
    p := -1;
  }

  /** Bytes put in front of, or after, a strings block move no name but its index. */
  lemma NamesKept(front: seq<Byte>, strs: seq<Byte>, back: seq<Byte>, i: int, name: seq<Byte>)
    requires NameAt(strs, i) == Some(name)
    ensures NameAt(front + strs + back, |front| + i) == Some(name)
  {
    var all := front + strs + back;
    var e := NulFrom(strs, i);
    forall j | |front| + i <= j < |front| + e ensures all[j] != 0 { assert all[j] == strs[j - |front|]; }
    FirstNul(all, |front| + i, |front| + e);
    assert all[|front| + i..|front| + e] == strs[i..e];
  }

  // ---------- a token changed in place ----------

  lemma {:induction false} OffsetUpdate(ts: seq<Token>, k: nat, t: Token, i: nat)
    requires k < |ts| && i <= |ts| && Size(t) == Size(ts[k])
    ensures Offset(ts[k := t], i) == Offset(ts, i)
  {
    if i > 0 { OffsetUpdate(ts, k, t, i - 1); }
  }

  /** A new name offset stored in property k changes that token alone. */
  lemma RenameInPlace(s: seq<Byte>, s': seq<Byte>, ts: seq<Token>, k: nat, v: nat)
    requires Laid(s, ts) && k < |ts| && ts[k].Prop? && v < U32
    requires Patched(s, s', Offset(ts, k) + 8, WordBytes(v))
    ensures Laid(s', ts[k := Prop(v, ts[k].value)])
  {
    hide Offset;
    hide Holds;
    hide WordBytes;
    var t := Prop(v, ts[k].value);
    var us := ts[k := t];
    forall i | 0 <= i < |us| ensures Holds(s', Offset(us, i), us[i]) {
      OffsetUpdate(ts, k, t, i);
      assert Holds(s, Offset(ts, i), ts[i]);
      if i == k {
        Renamed(s, s', Offset(ts, k), ts[k], v);
      } else {
        if i < k { OffsetGrows(ts, i, k); } else { OffsetGrows(ts, k, i); }
        HoldsAway(s, s', Offset(ts, k) + 8, WordBytes(v), Offset(ts, i), ts[i]);
      }
    }
  }

  lemma Renamed(s: seq<Byte>, s': seq<Byte>, off: nat, t: Token, v: nat)
    requires Holds(s, off, t) && t.Prop? && v < U32 && Patched(s, s', off + 8, WordBytes(v))
    ensures Holds(s', off, Prop(v, t.value))
  {
    hide Word;
    hide WordBytes;
    WordLocal(s, off, s', off);
    WordLocal(s, off + 4, s', off + 4);
    SubWord(WordBytes(v), s', off + 8);
    PatchKeeps(s, s', off + 8, WordBytes(v), off + 12, off + 12 + |t.value|);
  }

  lemma HoldsAway(s: seq<Byte>, s': seq<Byte>, at: nat, bytes: seq<Byte>, off: nat, t: Token)
    requires Holds(s, off, t) && Patched(s, s', at, bytes) && (off + Used(t) <= at || at + |bytes| <= off)
    ensures Holds(s', off, t)
  {
    assert off + Used(t) <= |s|;
    hide Holds;
    HoldsLocal(s, off, s', off, t);
  }
}
