/** Numbers to text and back: print_int and strtoul on 64-bit values. Text is bytes. */
module Numbers {
  import opened Common

  const I64_MIN: int := -0x8000_0000_0000_0000
  const I64_MAX: int := 0x7FFF_FFFF_FFFF_FFFF

  // ---------- reading ----------

  predicate IsSpace(c: nat) { c == 32 || 9 <= c < 14 }
  predicate IsDigit(c: nat) { 48 <= c < 58 }
  predicate IsUpper(c: nat) { 65 <= c < 91 }
  predicate IsAlpha(c: nat) { 65 <= c < 91 || 97 <= c < 123 }

  /** The digit a byte stands for; 36 is in no base. */
  function Digit(c: nat): nat {
    if IsDigit(c) then c - 48 else if IsUpper(c) then c - 55 else if IsAlpha(c) then c - 87 else 36
  }

  predicate DigitIn(c: nat, base: int) { Digit(c) < 36 && Digit(c) < base }

  /** The end of the longest run of digits from i. */
  function RunEnd(s: seq<nat>, i: nat, base: int): (e: nat)
    requires i <= |s|
    ensures i <= e <= |s|
    ensures forall k :: i <= k < e ==> DigitIn(s[k], base)
    ensures e < |s| ==> !DigitIn(s[e], base)
    decreases |s| - i
  {
    if i < |s| && DigitIn(s[i], base) then RunEnd(s, i + 1, base) else i
  }

  function Value(s: seq<nat>, base: nat): nat {
    if s == [] then 0 else Value(s[..|s| - 1], base) * base + Digit(s[|s| - 1])
  }

  function SpacesEnd(s: seq<nat>, i: nat): (e: nat)
    requires i <= |s|
    ensures i <= e <= |s|
    ensures forall k :: i <= k < e ==> IsSpace(s[k])
    ensures e < |s| ==> !IsSpace(s[e])
    decreases |s| - i
  {
    if i < |s| && IsSpace(s[i]) then SpacesEnd(s, i + 1) else i
  }

  /** Where the digits start, in which base, and the sign before them. */
  datatype Head = Head(start: nat, base: int, negative: bool)

  function At(s: seq<nat>, i: nat): nat { if i < |s| then s[i] else 0 }

  function HeadOf(s: seq<nat>, base: int): Head {
    var i := SpacesEnd(s, 0);
    var j := if At(s, i) == 45 || At(s, i) == 43 then i + 1 else i;
    var hex := (base == 0 || base == 16) && At(s, j) == 48 && (At(s, j + 1) == 120 || At(s, j + 1) == 88);
    Head(if hex then j + 2 else j,
         if hex then 16 else if base != 0 then base else if At(s, j) == 48 then 8 else 10,
         At(s, i) == 45)
  }

  /** What strtoul should return for a text: the value of the longest digit run, its sign applied modulo 2^64,
  or 2^64 - 1 if the run's value does not fit; and where it should stop. */
  ghost predicate Reads(s: seq<nat>, base: int, value: nat, end: nat) {
    var h := HeadOf(s, base);
    && h.start <= |s|
    && var e := RunEnd(s, h.start, h.base);
       if e == h.start then
         value == 0 && end == 0
       else
         && end == e && 0 < h.base
         && var v := Value(s[h.start..e], h.base);
            value == if U64 <= v then U64 - 1 else if h.negative then (U64 - v) % U64 else v
  }

  /** A text has one reading. */
  lemma ReadsOnce(s: seq<nat>, base: int, value: nat, end: nat, value': nat, end': nat)
    requires Reads(s, base, value, end) && Reads(s, base, value', end')
    ensures value == value' && end == end'
  {
  }

  ghost predicate Terminated(s: seq<nat>, i: nat) { exists z :: i <= z < |s| && s[z] == 0 }

  lemma CutoffIsExact(acc: nat, c: nat, base: nat)
    requires c < base
    ensures acc * base + c <= U64 - 1 <==>
            !(acc > (U64 - 1) / base || (acc == (U64 - 1) / base && c > (U64 - 1) % base))
  {
    var q, r := (U64 - 1) / base, (U64 - 1) % base;
    assert U64 - 1 == q * base + r;
    if acc > q {
      assert (q + 1) * base <= acc * base;
    } else if acc < q {
      assert (acc + 1) * base <= q * base;
    }
  }

  lemma ValueGrows(s: seq<nat>, i: nat, k: nat, base: nat)
    requires i <= k < |s| && 0 < base
    ensures Value(s[i..k + 1], base) == Value(s[i..k], base) * base + Digit(s[k])
    ensures Value(s[i..k], base) <= Value(s[i..k], base) * base
  {
    assert s[i..k + 1][..k - i] == s[i..k];
    assert Value(s[i..k], base) * 1 <= Value(s[i..k], base) * base;
  }

  // The remainder of the range is held in a signed 32-bit variable.

  function Low32(r: nat): (c: int)
    ensures c <= r && (r < 0x8000_0000 ==> c == r)
  {
    var w := r % 0x1_0000_0000;
    if w < 0x8000_0000 then w else w - 0x1_0000_0000
  }

  /** A value in range that is taken for too large: its digits but the last reach the cutoff, and the last passes
      the truncated remainder. */
  ghost predicate Cut(v: nat, base: nat)
    requires 0 < base
  {
    v < U64 && v / base == (U64 - 1) / base && Low32((U64 - 1) % base) < v % base
  }

  /** That needs a base of more than 31 bits. */
  lemma CutNeedsWideBase(v: nat, base: nat)
    requires 0 < base && Cut(v, base)
    ensures 0x8000_0000 < base
  {
    SplitBy(v, base);
    SplitBy(U64 - 1, base);
  }

  lemma SplitBy(a: nat, b: nat)
    requires 0 < b
    ensures a == a / b * b + a % b && 0 <= a % b < b && 0 <= a / b
  {
  }

  lemma Joined(v: nat, d: nat, base: nat)
    requires d < base
    ensures (v * base + d) / base == v && (v * base + d) % base == d
  {
    var x := v * base + d;
    SplitBy(x, base);
    OneSplit(x / base, x % base, v, d, base);
  }

  lemma OneSplit(q: nat, r: nat, p: nat, s: nat, base: nat)
    requires q * base + r == p * base + s && r < base && s < base
    ensures q == p && r == s
  {
    if q < p { TimesAtLeast(base, p, q + 1); }
    if p < q { TimesAtLeast(base, q, p + 1); }
  }

  lemma CutGrows(v: nat, d: nat, base: nat)
    requires 0 < base <= I64_MAX && Cut(v, base)
    ensures U64 <= v * base + d && base <= v
  {
    hide Low32;
    CutNeedsWideBase(v, base);
    SplitBy(v, base);
    SplitBy(U64 - 1, base);
    var t := v / base * base;
    assert t == U64 - 1 - (U64 - 1) % base;
    TimesAtLeast(v, base, 2);
  }

  lemma TimesAtLeast(v: nat, base: nat, c: nat)
    requires c <= base
    ensures v * c <= v * base
  {
  }

  lemma NothingCut(base: nat)
    requires 0 < base <= I64_MAX
    ensures !Cut(0, base)
  {
    if Cut(0, base) { CutGrows(0, 0, base); }
  }

  /** What is taken for too large is not the largest value, nor the negative of one. */
  lemma CutIsWrong(v: nat, d: nat, base: nat)
    requires d < 36 && d < base <= I64_MAX && Cut(v * base + d, base)
    ensures var w := v * base + d; w != U64 - 1 && (U64 - w) % U64 != U64 - 1
  {
    Joined(v, d, base);
    CutGrows(v * base + d, 0, base);
    CutNeedsWideBase(v * base + d, base);
  }

  /** The accumulator after a run of value v: v itself, or stuck at the top once v is out of range or cut. */
  ghost predicate Holds(acc: nat, any: int, v: nat, base: nat)
    requires 0 < base
  {
    acc < U64 && if U64 <= v || Cut(v, base) then any < 0 && acc == U64 - 1 else 0 <= any && acc == v
  }

  /** The value w of the digits of v and one more. */
  ghost predicate Extends(v: nat, w: nat, d: nat, base: nat) { w == v * base + d && v <= v * base }

  method Accumulate(acc0: nat, any0: int, d: nat, base: nat, ghost v: nat, ghost w: nat) returns (acc: nat, any: int)
    requires d < base <= I64_MAX && Holds(acc0, any0, v, base) && Extends(v, w, d, base)
    ensures Holds(acc, any, w, base) && (any == 1 || any == -1)
    ensures any0 == -1 ==> any == -1
  {
    var cutoff, cutlim := (U64 - 1) / base, Low32((U64 - 1) % base);
    CutoffIsExact(v, d, base);
    Joined(v, d, base);
    if Cut(v, base) {
      CutGrows(v, d, base);
    }
    acc, any := acc0, -1;
    if any0 >= 0 {
      if acc > cutoff || (acc == cutoff && d > cutlim) {
        acc := U64 - 1;
      } else {
        any := 1;
        acc := acc * base;
        acc := acc + d;
      }
    }
  }

  /** The digits of s are in range and taken for too large. */
  ghost predicate FalselyCut(s: seq<nat>, base: int) {
    var h := HeadOf(s, base);
    && h.start <= |s| && h.start < RunEnd(s, h.start, h.base) && 0 < h.base
    && Cut(Value(s[h.start..RunEnd(s, h.start, h.base)], h.base), h.base)
  }

  lemma EmptyHolds(s: seq<nat>, i: nat, base: nat)
    requires i <= |s| && 0 < base <= I64_MAX
    ensures Holds(0, 0, Value(s[i..i], base), base)
  {
    NothingCut(base);
  }

  lemma CutRun(s: seq<nat>, i: nat, e: nat, base: nat)
    requires i < e <= |s| && 0 < base <= I64_MAX && DigitIn(s[e - 1], base)
    ensures var v := Value(s[i..e], base); Cut(v, base) ==> v < U64 - 1 && (U64 - v) % U64 != U64 - 1
  {
    ValueGrows(s, i, e - 1, base);
    if Cut(Value(s[i..e], base), base) {
      CutIsWrong(Value(s[i..e - 1], base), Digit(s[e - 1]), base);
    }
  }

  /** What the accumulator means once the digits end at e. */
  lemma Concludes(s: seq<nat>, base: int, h: Head, e: nat, acc: nat, any: int)
    requires HeadOf(s, base) == h && h.start <= e <= |s| && RunEnd(s, h.start, h.base) == e
    requires (any == 0 <==> e == h.start) && (any == 0 ==> acc == 0)
    requires any != 0 ==>
               && 0 < h.base <= I64_MAX && DigitIn(s[e - 1], h.base)
               && Holds(acc, any, Value(s[h.start..e], h.base), h.base)
    ensures var value, end := if h.negative && any > 0 then (U64 - acc) % U64 else acc, if any != 0 then e else 0;
            && (Reads(s, base, value, end) <==> !FalselyCut(s, base))
            && (FalselyCut(s, base) ==> value == U64 - 1 && end == e)
  {
    hide Value;
    hide HeadOf;
    hide Cut;
    if any != 0 {
      CutRun(s, h.start, e, h.base);
    }
  }

  /** One digit more: it is not the terminator, the run ends where it did, and the value grows by the digit. */
  lemma RunGoesOn(s: seq<nat>, start: nat, i: nat, base: nat)
    requires start <= i < |s| && DigitIn(s[i], base) && Terminated(s, i)
    ensures i + 1 < |s| && Terminated(s, i + 1) && RunEnd(s, i + 1, base) == RunEnd(s, i, base)
    ensures Extends(Value(s[start..i], base), Value(s[start..i + 1], base), Digit(s[i]), base)
  {
    ValueGrows(s, start, i, base);
  }

  lemma IsDigitIn(c: nat, base: int)
    ensures DigitIn(c, base) <==>
            (IsDigit(c) || IsAlpha(c)) && (if IsDigit(c) then c - 48 else c - (if IsUpper(c) then 55 else 87)) < base
  {
  }

  lemma RunStops(s: seq<nat>, i: nat, base: int)
    requires i < |s| && !DigitIn(s[i], base)
    ensures RunEnd(s, i, base) == i
  {
  }

  /** strtoul on a terminated string; it never reads past the terminator, and it is right exactly when the
      truncated remainder does not cut a value off. */
  method Strtoul(nptr: seq<nat>, base0: int) returns (acc: nat, end: nat)
    requires Terminated(nptr, 0) && I64_MIN <= base0 <= I64_MAX
    ensures Reads(nptr, base0, acc, end) <==> !FalselyCut(nptr, base0)
    ensures FalselyCut(nptr, base0) ==>
              acc == U64 - 1 && var h := HeadOf(nptr, base0); h.start <= |nptr| && end == RunEnd(nptr, h.start, h.base)
  {
    hide Value;
    hide HeadOf;
    hide Holds;
    hide Reads;
    hide FalselyCut;
    hide RunEnd;
    hide Terminated;
    hide DigitIn;
    hide Extends;
    var s, c, neg, base := ParseHead(nptr, base0);
    ghost var start := s - 1;
    var any := 0;
    acc := 0;
    if 0 < base {
      EmptyHolds(nptr, start, base);
    }
    while true
      invariant start < s <= |nptr| && c == nptr[s - 1] && Terminated(nptr, s - 1)
      invariant RunEnd(nptr, s - 1, base) == RunEnd(nptr, start, base)
      invariant any == 0 <==> s - 1 == start
      invariant -1 <= any <= 1 && (any != 0 ==> 0 < base && DigitIn(nptr[s - 2], base))
      invariant (any == 0 ==> acc == 0) && (0 < base ==> Holds(acc, any, Value(nptr[start..s - 1], base), base))
      decreases |nptr| - s
    {
      var d := 0;
      IsDigitIn(c, base);
      if IsDigit(c) {
        d := c - 48;
      } else if IsAlpha(c) {
        d := c - (if IsUpper(c) then 55 else 87);
      } else {
        break;
      }
      if d >= base {
        break;
      }
      RunGoesOn(nptr, start, s - 1, base);
      acc, any := Accumulate(acc, any, d, base, Value(nptr[start..s - 1], base), Value(nptr[start..s], base));
      c := nptr[s];
      s := s + 1;
    }
    RunStops(nptr, s - 1, base);
    Concludes(nptr, base0, Head(start, base, neg), s - 1, acc, any);
    if neg && any > 0 {
      acc := (U64 - acc) % U64;
    }
    end := if any != 0 then s - 1 else 0;
  }

  /** In the bases the language allows, and in every other of at most 31 bits, nothing is cut. */
  lemma NeverCutBelow31Bits(s: seq<nat>, base: int)
    requires base <= 0x8000_0000
    ensures !FalselyCut(s, base)
  {
    hide Value;
    var h := HeadOf(s, base);
    if FalselyCut(s, base) {
      CutNeedsWideBase(Value(s[h.start..RunEnd(s, h.start, h.base)], h.base), h.base);
    }
  }

  /** Above, it happens: "30" in base 2^62 is in range and comes out as 2^64 - 1. */
  lemma CutExample()
    ensures FalselyCut([51, 48, 0], 0x4000_0000_0000_0000)
  {
    var s, base := [51, 48, 0], 0x4000_0000_0000_0000;
    assert HeadOf(s, base) == Head(0, base, false);
    assert RunEnd(s, 2, base) == 2;
    assert RunEnd(s, 1, base) == 2;
    assert RunEnd(s, 0, base) == 2;
    assert s[0..2][..1] == [51] && [51][..0] == [];
    assert Value([], base) == 0 && Value([51], base) == 3;
    assert Value(s[0..2], base) == 3 * base;
  }

  // ---------- where a number ends ----------

  /** s[..e] is a number as section 7.22.1.4 of the C standard describes it: spaces, a sign, a prefix in base 16
      or with the base detected, and at least one digit. */
  ghost predicate Subject(s: seq<nat>, base: int, e: nat) {
    var i := SpacesEnd(s, 0);
    var j := if At(s, i) == 45 || At(s, i) == 43 then i + 1 else i;
    var plain := if base != 0 then base else if At(s, j) == 48 then 8 else 10;
    || (j < e <= |s| && forall k :: j <= k < e ==> DigitIn(s[k], plain))
    || (HexPrefix(s, base, j) && j + 2 < e <= |s| && forall k :: j + 2 <= k < e ==> DigitIn(s[k], 16))
  }

  ghost predicate HexPrefix(s: seq<nat>, base: int, j: nat) {
    (base == 0 || base == 16) && At(s, j) == 48 && (At(s, j + 1) == 120 || At(s, j + 1) == 88)
  }

  /** Where the standard says to stop: after the longest number, or at the start if there is none. */
  ghost predicate StandardEnd(s: seq<nat>, base: int, e: nat) {
    if e == 0 then forall e' :: 0 <= e' <= |s| ==> !Subject(s, base, e')
    else Subject(s, base, e) && forall e' :: e < e' <= |s| ==> !Subject(s, base, e')
  }

  /** A hexadecimal prefix with no hexadecimal digit behind it. */
  ghost predicate BarePrefix(s: seq<nat>, base: int) {
    var i := SpacesEnd(s, 0);
    var j := if At(s, i) == 45 || At(s, i) == 43 then i + 1 else i;
    HexPrefix(s, base, j) && !DigitIn(At(s, j + 2), 16)
  }

  /** The code stops where the standard says except after a bare prefix, where it should have read the zero. */
  lemma EndIsStandard(s: seq<nat>, base: int, value: nat, end: nat)
    requires Reads(s, base, value, end)
    ensures StandardEnd(s, base, end) <==> !BarePrefix(s, base)
  {
    hide Value;
    var h := HeadOf(s, base);
    var i := SpacesEnd(s, 0);
    var j := if At(s, i) == 45 || At(s, i) == 43 then i + 1 else i;
    var e := RunEnd(s, h.start, h.base);
    assert HexPrefix(s, base, j) ==> h == Head(j + 2, 16, h.negative) && j + 2 <= |s|;
    if BarePrefix(s, base) {
      assert e == h.start && end == 0;
      assert Subject(s, base, j + 1);
    } else {
      forall e' | e < e' <= |s| ensures !Subject(s, base, e') {
        if !HexPrefix(s, base, j) { assert !DigitIn(s[e], h.base); }
      }
      if e == h.start {
        forall e' | 0 <= e' <= |s| ensures !Subject(s, base, e') {}
      } else {
        assert Subject(s, base, e);
      }
    }
  }

  /** Spaces, a sign, a 0x prefix: s is the next byte to read and c the last one read. */
  method ParseHead(nptr: seq<nat>, base0: int) returns (s: nat, c: nat, neg: bool, base: int)
    requires Terminated(nptr, 0)
    ensures 0 < s <= |nptr| && c == nptr[s - 1] && Terminated(nptr, s - 1)
    ensures HeadOf(nptr, base0) == Head(s - 1, base, neg) && (base == base0 || 8 <= base <= 16)
  {
    base := base0;
    c := nptr[0];
    s := 1;
    while IsSpace(c)
      invariant 0 < s <= |nptr| && c == nptr[s - 1] && Terminated(nptr, s - 1)
      invariant SpacesEnd(nptr, 0) == SpacesEnd(nptr, s - 1)
      decreases |nptr| - s
    {
      c := nptr[s];
      s := s + 1;
    }
    neg := false;
    if c == 45 {
      neg := true;
      c := nptr[s];
      s := s + 1;
    } else if c == 43 {
      c := nptr[s];
      s := s + 1;
    }
    if (base == 0 || base == 16) && c == 48 && (nptr[s] == 120 || nptr[s] == 88) {
      c := nptr[s + 1];
      s := s + 2;
      base := 16;
    }
    if base == 0 {
      base := if c == 48 then 8 else 10;
    }
  }

  // ---------- printing ----------

  function DigitChar(d: nat): (c: nat)
    requires d < 16
    ensures Digit(c) == d && (IsDigit(c) || IsUpper(c))
  {
    if d < 10 then 48 + d else 55 + d
  }

  /** The number printed, as an unsigned 64-bit value. */
  function Magnitude(x: int, sign: bool): (m: nat)
    requires I64_MIN <= x <= I64_MAX
    ensures m < U64
  {
    if sign && x < 0 then -x else x % U64
  }

  function Quotient(m: nat, base: nat): (q: nat)
    requires 0 < base
    ensures m == q * base + Remainder(m, base)
    ensures q == 0 <==> m < base
    ensures 2 <= base && 0 < m ==> q < m
  {
    QuotientSmaller(m, m / base, base);
    m / base
  }

  lemma QuotientSmaller(m: nat, q: nat, base: nat)
    requires 0 <= m - q * base < base
    ensures q == 0 <==> m < base
    ensures 2 <= base && 0 < m ==> q < m
  {
    if 0 < q {
      assert base <= q * base;
      if 2 <= base { assert q * 2 <= q * base; }
    }
  }

  function Remainder(m: nat, base: nat): (r: nat)
    requires 0 < base
    ensures r < base && (m < base ==> r == m)
  {
    m % base
  }

  function Digits(m: nat, base: nat): (t: seq<nat>)
    requires 2 <= base <= 16
    ensures 0 < |t|
    decreases m
  {
    if m < base then [DigitChar(m)] else Digits(Quotient(m, base), base) + [DigitChar(Remainder(m, base))]
  }

  function Text(x: int, base: nat, sign: bool): seq<nat>
    requires I64_MIN <= x <= I64_MAX && 2 <= base <= 16
  {
    (if sign && x < 0 then [45] else []) + Digits(Magnitude(x, sign), base)
  }

  function Pow(b: nat, n: nat): nat { if n == 0 then 1 else Pow(b, n - 1) * b }

  /** The digits are the value, all digits of the base, with no needless zero in front. */
  lemma {:induction false} DigitsAreValue(m: nat, base: nat)
    requires 2 <= base <= 16
    ensures Value(Digits(m, base), base) == m
    ensures forall k :: 0 <= k < |Digits(m, base)| ==> DigitIn(Digits(m, base)[k], base)
    ensures Digits(m, base)[0] == 48 ==> m == 0 && |Digits(m, base)| == 1
    decreases m
  {
    hide Value;
    hide DigitChar;
    hide Quotient;
    hide Remainder;
    if m < base {
      ValueSnoc([], m, base);
      assert [] + [DigitChar(m)] == [DigitChar(m)];
    } else {
      var q, r := Quotient(m, base), Remainder(m, base);
      DigitsAreValue(q, base);
      ValueSnoc(Digits(q, base), r, base);
    }
  }

  lemma ValueSnoc(t: seq<nat>, d: nat, base: nat)
    requires d < base <= 16
    ensures Value(t + [DigitChar(d)], base) == Value(t, base) * base + d
    ensures Value([], base) == 0
  {
    assert (t + [DigitChar(d)])[..|t|] == t;
  }

  /** A number has at most n digits exactly when it is below the n-th power of the base. */
  lemma {:induction false} DigitCount(m: nat, base: nat, n: nat)
    requires 2 <= base <= 16 && 0 < n
    ensures |Digits(m, base)| <= n <==> m < Pow(base, n)
    decreases n
  {
    assert Pow(base, 1) == base;
    if n == 1 {
    } else if m < base {
      PowAtLeast(base, n);
    } else {
      DigitCount(Quotient(m, base), base, n - 1);
      DivBelow(m, base, Pow(base, n - 1));
    }
  }

  lemma {:induction false} PowAtLeast(base: nat, n: nat)
    requires 0 < n && 0 < base
    ensures base <= Pow(base, n)
  {
    if n > 1 {
      PowAtLeast(base, n - 1);
      assert base * 1 <= Pow(base, n - 1) * base;
    } else {
      assert Pow(base, 1) == base;
    }
  }

  lemma DivBelow(m: nat, b: nat, p: nat)
    requires 0 < b
    ensures m / b < p <==> m < p * b
  {
    var q := m / b;
    assert m == q * b + m % b;
    if q < p {
      assert (q + 1) * b <= p * b;
    } else {
      assert p * b <= q * b;
    }
  }

  /** What fits the 32-byte buffer. */
  lemma TextFits(x: int, base: nat, sign: bool)
    requires I64_MIN <= x <= I64_MAX && 2 <= base <= 16
    ensures |Text(x, base, sign)| <= 32 <==> Magnitude(x, sign) < Pow(base, if sign && x < 0 then 31 else 32)
  {
    DigitCount(Magnitude(x, sign), base, if sign && x < 0 then 31 else 32);
  }

  lemma {:induction false} PowGrows(a: nat, b: nat, n: nat)
    requires a <= b
    ensures Pow(a, n) <= Pow(b, n)
  {
    if n > 0 {
      PowGrows(a, b, n - 1);
      ProductGrows(Pow(a, n - 1), Pow(b, n - 1), a, b);
    }
  }

  lemma ProductGrows(p: nat, q: nat, a: nat, b: nat)
    requires p <= q && a <= b
    ensures p * a <= q * b
  {
    assert p * a <= q * a;
    assert q * a <= q * b;
  }

  lemma PowAdd(b: nat, m: nat, n: nat)
    ensures Pow(b, m + n) == Pow(b, m) * Pow(b, n)
  {
    if n > 0 {
      PowAdd(b, m, n - 1);
      assert Pow(b, m) * (Pow(b, n - 1) * b) == Pow(b, m) * Pow(b, n - 1) * b;
    } else {
      assert Pow(b, 0) == 1;
    }
  }

  /** Every value fits in base 5 and up, so in the bases 10 and 16 the kernel prints in; below, some do not. */
  lemma AlwaysFits(base: nat)
    requires 2 <= base <= 16
    ensures (forall x, sign :: I64_MIN <= x <= I64_MAX ==> |Text(x, base, sign)| <= 32) <==> 5 <= base
  {
    if 5 <= base {
      forall x, sign | I64_MIN <= x <= I64_MAX ensures |Text(x, base, sign)| <= 32 {
        var n := if sign && x < 0 then 31 else 32;
        TextFits(x, base, sign);
        PowGrows(5, base, n);
        Fives();
      }
    } else {
      TextFits(I64_MIN, base, true);
      PowGrows(base, 4, 31);
      Fours();
    }
  }

  lemma Fours()
    ensures Pow(4, 31) < 0x8000_0000_0000_0000
  {
    assert Pow(4, 7) == 16384;
    assert Pow(4, 8) == 65536;
    PowAdd(4, 8, 8);
    PowAdd(4, 16, 8);
    PowAdd(4, 24, 7);
  }

  lemma Fives()
    ensures U64 <= Pow(5, 31) && U64 <= Pow(5, 32)
  {
    assert Pow(5, 4) == 625;
    PowAdd(5, 4, 4);
    PowAdd(5, 8, 8);
    PowAdd(5, 16, 8);
    PowAdd(5, 24, 4);
    assert Pow(5, 31) == Pow(5, 28) * 125;
    assert Pow(5, 32) == Pow(5, 31) * 5;
  }

  /** The digit loop of _print_int: bytes lowest digit first, or a stop at the write past the buffer's end. */
  method PrintDigits(buf: array<nat>, x: int, base: nat, sign: bool) returns (size: nat, fits: bool)
    requires buf.Length == 32 && I64_MIN <= x <= I64_MAX && 2 <= base <= 16
    modifies buf
    ensures fits <==> |Text(x, base, sign)| <= 32
    ensures fits ==> size == |Text(x, base, sign)| && Backwards(buf[..size]) == Text(x, base, sign)
  {
    hide Digits;
    var negative := sign && x < 0;
    var xx: nat := if negative then -x else x % U64;
    var i := PrintMagnitude(buf, xx, base);
    if i == 33 { return 0, false; }
    if negative {
      if i == 32 { return 0, false; }
      BackwardsPush(buf[..i], 45);
      ghost var was := buf[..i];
      buf[i] := 45;
      assert buf[..i + 1] == was + [45];
      i := i + 1;
    }
    size, fits := i, true;
  }

  /** Lowest digit first; 33 stands for a write past the buffer's end. */
  method PrintMagnitude(buf: array<nat>, m: nat, base: nat) returns (i: nat)
    requires buf.Length == 32 && 2 <= base <= 16
    modifies buf
    ensures i == 33 <==> 32 < |Digits(m, base)|
    ensures i != 33 ==> i == |Digits(m, base)| && Backwards(buf[..i]) == Digits(m, base)
  {
    hide Quotient;
    hide Remainder;
    hide DigitChar;
    hide Backwards;
    hide Digits;
    var xx := m;
    ghost var tail: seq<nat> := [];
    i := 0;
    while true
      invariant i <= 32 && Digits(m, base) == Digits(xx, base) + tail && |tail| == i
      invariant Backwards(buf[..i]) == tail
      decreases xx
    {
      DigitsStep(xx, base);
      if i == 32 { return 33; }
      var d := DigitChar(Remainder(xx, base));
      ghost var was := buf[..i];
      BackwardsPush(was, d);
      buf[i] := d;
      assert buf[..i + 1] == was + [d];
      i := i + 1;
      ghost var before := tail;
      tail := [d] + tail;
      xx := Quotient(xx, base);
      if xx == 0 {
        break;
      }
      assert Digits(m, base) == Digits(xx, base) + [d] + before == Digits(xx, base) + tail;
    }
  }

  lemma DigitsStep(m: nat, base: nat)
    requires 2 <= base <= 16
    ensures Digits(m, base) ==
            (if Quotient(m, base) == 0 then [] else Digits(Quotient(m, base), base)) + [DigitChar(Remainder(m, base))]
  {
  }

  function Backwards(s: seq<nat>): (r: seq<nat>)
    ensures |r| == |s|
    ensures forall k :: 0 <= k < |s| ==> r[k] == s[|s| - 1 - k]
  {
    if s == [] then [] else [s[|s| - 1]] + Backwards(s[..|s| - 1])
  }

  lemma BackwardsPush(s: seq<nat>, c: nat)
    ensures Backwards(s + [c]) == [c] + Backwards(s)
  {
    assert (s + [c])[..|s|] == s;
  }

  /** print_int: the text is appended to the output. */
  method PrintInt(out: array<nat>, count0: nat, x: int, base: nat, sign: bool) returns (count: nat, fits: bool)
    requires I64_MIN <= x <= I64_MAX && 2 <= base <= 16
    requires count0 + |Text(x, base, sign)| <= out.Length
    modifies out
    ensures fits <==> |Text(x, base, sign)| <= 32
    ensures fits ==> count == count0 + |Text(x, base, sign)|
    ensures fits ==> out[..] == old(out[..count0]) + Text(x, base, sign) + old(out[count..])
  {
    hide Text;
    hide Backwards;
    var buf := new nat[32](_ => 0);
    var i: nat;
    count := count0;
    i, fits := PrintDigits(buf, x, base, sign);
    if fits { count := CopyOut(out, count0, buf, i); }
  }

  /** The copy loop: the buffer's bytes, last first. */
  method CopyOut(out: array<nat>, count0: nat, buf: array<nat>, n: nat) returns (count: nat)
    requires out != buf && n <= buf.Length && count0 + n <= out.Length
    modifies out
    ensures count == count0 + n
    ensures out[..] == old(out[..count0]) + Backwards(buf[..n]) + old(out[count..])
  {
    hide Backwards;
    var i := n;
    count := count0;
    ghost var text := Backwards(buf[..n]);
    while i > 0
      invariant 0 <= i <= n && count == count0 + n - i
      invariant forall k :: 0 <= k < n ==> buf[k] == text[n - 1 - k]
      invariant forall k :: 0 <= k < out.Length ==>
                  out[k] == if count0 <= k < count then text[k - count0] else old(out[k])
    {
      i := i - 1;
      out[count] := buf[i];
      count := count + 1;
    }
  }

  // ---------- the round trip ----------

  /** strtoul reads back what print_int wrote, modulo 2^64, and stops right after it. */
  lemma ReadsBack(x: int, base: nat, sign: bool, rest: seq<nat>)
    requires I64_MIN <= x <= I64_MAX && 2 <= base <= 16 && 0 < |rest| && Digit(rest[0]) == 36
    ensures Reads(Text(x, base, sign) + rest, base, x % U64, |Text(x, base, sign)|)
  {
    hide Value;
    hide Digits;
    var text := Text(x, base, sign);
    var m, negative := Magnitude(x, sign), sign && x < 0;
    var s, j, digits := text + rest, if negative then 1 else 0, Digits(m, base);
    DigitsAreValue(m, base);
    assert forall k :: 0 <= k < |digits| ==> s[j + k] == digits[k];
    assert !IsSpace(s[0]) && DigitIn(digits[0], base);
    assert HeadOf(s, base) == Head(j, base, negative);
    RunIs(s, j, |text|, base);
    assert s[j..|text|] == digits;
    ReadsRun(s, base, Head(j, base, negative), |text|, m);
  }

  lemma ReadsRun(s: seq<nat>, base: int, h: Head, e: nat, m: nat)
    requires HeadOf(s, base) == h && h.start < e <= |s| && RunEnd(s, h.start, h.base) == e && 0 < h.base
    requires Value(s[h.start..e], h.base) == m < U64
    ensures Reads(s, base, if h.negative then (U64 - m) % U64 else m, e)
  {
  }

  /** And, with the prefix of a printed pointer, also in base 0. */
  lemma PointerReadsBack(x: int, base: nat, rest: seq<nat>)
    requires I64_MIN <= x <= I64_MAX && (base == 0 || base == 16) && 0 < |rest| && Digit(rest[0]) == 36
    ensures Reads([48, 120] + Text(x, 16, false) + rest, base, x % U64, 2 + |Text(x, 16, false)|)
  {
    hide Value;
    hide Digits;
    var text := Text(x, 16, false);
    var s := [48, 120] + text + rest;
    assert text == Digits(Magnitude(x, false), 16);
    DigitsAreValue(Magnitude(x, false), 16);
    assert forall k :: 0 <= k < |text| ==> s[2 + k] == text[k];
    assert HeadOf(s, base) == Head(2, 16, false);
    RunIs(s, 2, 2 + |text|, 16);
    assert s[2..2 + |text|] == text;
    ReadsRun(s, base, Head(2, 16, false), 2 + |text|, Magnitude(x, false));
  }

  lemma {:induction false} RunIs(s: seq<nat>, i: nat, e: nat, base: int)
    requires i <= e < |s| && !DigitIn(s[e], base)
    requires forall k :: i <= k < e ==> DigitIn(s[k], base)
    ensures RunEnd(s, i, base) == e
    decreases e - i
  {
    if i < e { RunIs(s, i + 1, e, base); }
  }
}
